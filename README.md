# Globalgrad study-abroad advisor: a verified model of its core

Globalgrad guides a student through studying abroad. The student signs up and fills in a
four-step onboarding wizard (academic background, study goal, budget, exams and
readiness), which saves a fifteen-field profile. The dashboard then rates the profile's
strength, shows the advising stage and lists recommended tasks. On the universities page
the student shortlists universities from a static catalog and locks the ones they will
apply to. A FastAPI backend stores the profile (`user_onboarding`) and the selections
(`user_universities`), and a route guard keeps visitors out of the pages that need a
session or a finished onboarding.

The project models these parts:

- `Wire` (`wire.dfy`) holds the values that cross the HTTP boundary:
  - JavaScript values with truthiness, `??` and `||`;
  - the profile as a map from its fifteen fields, where an absent key is an absent property;
  - `JSON.stringify`, which drops properties whose value is `undefined`;
  - a fetch outcome, which either threw or returned a value.
- `Dashboard` (`dashboard.dfy`) holds the profile-strength rating, the advising stage, the stage tracker's step classes, to-do generation and the to-do toggle. The page's state is the class `DashboardPage`.
- `Universities` (`universities.dfy`) holds the universities page:
  - the initial split of the fetched selections into the shortlisted and locked lists;
  - the three click handlers, as methods of `UniversitiesPage`;
  - the catalog filter.

  The handlers guard nothing themselves. The buttons the page renders (`Enabled`) are what keep the two lists apart.
- `CrudUniversity` (`crud_university.dfy`) holds the selection table (`SelectionTable`):
  - a sequence of rows that has no uniqueness constraint;
  - a first-match lookup;
  - the lookup-then-update-or-insert upsert and the lookup-then-delete removal;
  - the 404 of the delete endpoint.

  `Abs` reads the table as a map from (user, university) to status.
- `CrudOnboarding` (`crud_onboarding.dfy`) holds the profile table (`OnboardingStore`):
  - `create`, which stores every schema field and leaves the unset ones null;
  - `update`, which assigns only the fields the body sets, one by one;
  - `upsert`;
  - the PUT endpoint, which also marks the user onboarded.
- `Onboarding` (`onboarding.dfy`) holds the wizard (`OnboardingPage`): the default form, the load merge, `update`, the request body that `saveProgress` and `handleSubmit` send, and the step counter.
- `ProtectedRoute` (`protected_route.dfy`) holds the guard's four-way decision and the application's route table.
- `Sync` (`sync.dfy`) ties the layers together:
  - the universities page's lists mirror the backend table through any run of rendered clicks whose requests the server applied (see `Sync.RequestOf` under "## Left out");
  - the stored profile is exactly the body the wizard sent;
  - the dashboard reads the saved profile as it would read the form;
  - submitting the wizard lets the user past the dashboard's guard.

The model follows the code in four places where a reader might expect otherwise:

- A profile with no scoring signal is rated "Needs Work" (styled `strength-weak`), not "Weak". Only a missing profile is "Weak".
- A profile that leaves `gre_gmat_status` unset gets no "Check GRE/GMAT requirements" task. The check compares the field with `"not_taken"`, and an unset field arrives as `null` (the profile endpoint serialises every schema field) or as `undefined`; neither matches (`Dashboard.AbsentGreStatusGivesNoAptitudeTask`).
- Neither the handlers nor the backend refuse to lock a university that was not shortlisted. Only the rendered buttons prevent it.
- On load, a stored null in a status field replaces the form's default (`Onboarding.LoadedKeepsNullStatus`). Only the two years fall back, to `undefined`.

## Model

| member | source | states |
|---|---|---|
| Wire.Stringify | frontend/src/Onboarding.tsx:84-90 | the serialised body keeps exactly the properties that are not `undefined`, with their values, so the backend sees only those fields as set |
| Dashboard.HeldSignalsCount | frontend/src/Dashboard.tsx:120-124 | the score is the sum of four one-point checks (a truthy GPA, IELTS/TOEFL "taken", GRE/GMAT "taken", SOP "Ready"), hence between 0 and 4 |
| Dashboard.ProfileStrength | frontend/src/Dashboard.tsx:118-129 | "Weak" iff there is no profile; otherwise "Strong" iff the score is at least 3, "Average" iff it is 1 or 2, and "Needs Work" with class `strength-weak` iff it is 0 |
| Dashboard.CountStatus | frontend/src/Dashboard.tsx:79-80 | the count of selections with a status is at most the number of selections, and is positive iff some selection has that status |
| Dashboard.CountStatusAppend | frontend/src/Dashboard.tsx:79-80 | the count of a concatenation is the sum of the counts; with the one-selection case (1 exactly when the status matches) this makes it the length of the filtered list |
| Dashboard.DetermineStage | frontend/src/Dashboard.tsx:131-138 | the stage is in 2..4: 4 iff any selection is locked, whatever is shortlisted; 3 iff none is locked and one is shortlisted; 2 otherwise |
| Dashboard.StageClass | frontend/src/Dashboard.tsx:179-183 | a step is "completed" iff it comes before the current stage, "active" iff it is the current stage, and unclassed iff it comes after |
| Dashboard.StageTrackerShape | frontend/src/Dashboard.tsx:179-183 | "Profile Setup" is always completed, and of the four steps exactly the current stage is active |
| Dashboard.Standing | frontend/src/Dashboard.tsx:106 | the kept entries are exactly the previous entries with id 1, and there are no more of them than before |
| Dashboard.SelectionTask | frontend/src/Dashboard.tsx:98-104 | the selection task is the id 5 apply task iff something is locked; the id 6 lock task iff nothing is locked and at least 3 are shortlisted; the id 7 shortlist task otherwise |
| Dashboard.NewTasks | frontend/src/Dashboard.tsx:78-104 | between one and four tasks are generated, and the last is exactly the selection task |
| Dashboard.NewTasksOrdered | frontend/src/Dashboard.tsx:83-104 | generated tasks are not completed, have ids 2..7 in strictly increasing order, and only the last has an id above 4 |
| Dashboard.LanguageTaskPresence | frontend/src/Dashboard.tsx:83-85 | the IELTS/TOEFL task is generated iff that status is "not_taken", and it is the only task with id 2 |
| Dashboard.AptitudeTaskPresence | frontend/src/Dashboard.tsx:86-88 | the GRE/GMAT task is generated iff that status is "not_taken" and the intended degree is not "Bachelor's", and it is the only task with id 3 |
| Dashboard.SopTaskPresence | frontend/src/Dashboard.tsx:91-95 | "Draft your Statement of Purpose" iff the SOP is "Not started"; "Finalize SOP" iff it is "Draft"; otherwise no task has id 4 |
| Dashboard.AbsentGreStatusGivesNoAptitudeTask | frontend/src/Dashboard.tsx:86-88 | a Master's profile without `gre_gmat_status` gets the IELTS, SOP-draft and shortlist tasks, and no GRE/GMAT task |
| Dashboard.SameReading | frontend/src/Dashboard.tsx:77-129 | two profiles that agree on GPA, both exam statuses, intended degree and SOP status get the same rating signals and the same tasks |
| Dashboard.Toggled | frontend/src/Dashboard.tsx:109-111 | length, order, ids and texts are unchanged; the flag flips on exactly the entries with the given id |
| Dashboard.ToggleTwiceRestores | frontend/src/Dashboard.tsx:109-111 | toggling the same id twice gives back the original list |
| Dashboard.StandingWithoutId1 | frontend/src/Dashboard.tsx:106 | a list without an id-1 entry keeps nothing |
| Dashboard.StandingOfUnique | frontend/src/Dashboard.tsx:106 | in a list with unique ids that holds id 1, the filter keeps exactly that entry with its completion flag |
| Dashboard.RegenerateKeepsStanding | frontend/src/Dashboard.tsx:106 | regenerating keeps unique ids and exactly one id-1 entry, whose completion flag is carried over |
| Dashboard.ToggleKeepsStanding | frontend/src/Dashboard.tsx:109-111 | toggling keeps unique ids and one id-1 entry, whose flag flips iff the toggled id is 1 |
| Dashboard.DashboardPage.constructor | frontend/src/Dashboard.tsx:47-52 | the page starts loading, with no profile, no selections and only the research task, not completed |
| Dashboard.DashboardPage.GenerateTodos | frontend/src/Dashboard.tsx:77-107 | the list becomes the previous id-1 entries followed by the generated tasks, and the single standing entry keeps its flag |
| Dashboard.DashboardPage.ToggleTodo | frontend/src/Dashboard.tsx:109-111 | the list becomes its toggled version, and the list keeps one standing entry and unique ids |
| Dashboard.DashboardPage.Load | frontend/src/Dashboard.tsx:54-75 | the profile is stored (null when not ok) and then the selections (empty when not ok); tasks are regenerated only when a profile came back; a thrown fetch stops the rest; loading always ends |
| Universities.IdsWithStatus | frontend/src/pages/Universities.tsx:48-49 | an id is listed iff a fetched selection has it with that status |
| Universities.IdsWithStatusNoDup | frontend/src/pages/Universities.tsx:48-49 | with one selection per university the list has no repeats |
| Universities.IdsWithStatusAppend | frontend/src/pages/Universities.tsx:48-49 | the split preserves fetch order: it distributes over concatenation |
| Universities.LoadedListsWellFormed | frontend/src/pages/Universities.tsx:48-51 | selections with one record per university split into two lists without repeats and without a shared id |
| Universities.Without | frontend/src/pages/Universities.tsx:72 | removal drops every occurrence of the id and keeps every other entry; a list without the id is unchanged |
| Universities.Kept | frontend/src/pages/Universities.tsx:129 | the filtered catalog holds exactly the catalog entries in the list |
| Universities.KeptAppend | frontend/src/pages/Universities.tsx:129-131 | the filter keeps catalog order: it distributes over concatenation |
| Universities.DisplayUniversities | frontend/src/pages/Universities.tsx:126-136 | the "all" tab shows the catalog unchanged; the other tabs show exactly the catalog entries in the matching list |
| Universities.Enabled | frontend/src/pages/Universities.tsx:154-257 | the buttons the page renders: the tabs always, "Remove" and "Lock Application" on the shortlisted tab, "Unlock" on the locked tab, and on the "all" tab a shortlist toggle disabled for a locked id; its consequences are stated by `Universities.EnabledActionKeepsWellFormed` and `Universities.EnabledRunKeepsWellFormed` |
| Universities.EnabledActionKeepsWellFormed | frontend/src/pages/Universities.tsx:66-123 | any click on a button the page renders, applied to disjoint lists without repeats, leaves them disjoint and without repeats |
| Universities.EnabledRunKeepsWellFormed | frontend/src/pages/Universities.tsx:66-123 | the same holds for any sequence of rendered clicks |
| Universities.AddLockUnlockScenario | frontend/src/pages/Universities.tsx:66-123 | shortlisting, switching tab, locking and unlocking "uk-1" ends with it shortlisted, and it is never in both lists along the way |
| Universities.UnguardedShortlistOverlaps | frontend/src/pages/Universities.tsx:76-85 | the add branch does not consult the locked list: shortlisting a locked id puts it in both lists |
| Universities.UnguardedLockRepeats | frontend/src/pages/Universities.tsx:100 | locking does not de-duplicate: locking a locked id lists it twice |
| Universities.UniversitiesPage.constructor | frontend/src/pages/Universities.tsx:29-35 | the page starts on the "all" tab with empty lists, loading |
| Universities.UniversitiesPage.Load | frontend/src/pages/Universities.tsx:38-64 | the lists become the split of the fetched selections; a thrown fetch leaves them; the catalog is shown and loading ends either way |
| Universities.UniversitiesPage.SetActiveTab | frontend/src/pages/Universities.tsx:156-170 | a tab click changes only the active tab |
| Universities.UniversitiesPage.HandleShortlist | frontend/src/pages/Universities.tsx:67-90 | a listed id is removed and an unlisted one appended, only when the fetch returned; the locked list is untouched; a rendered click keeps the lists well formed |
| Universities.UniversitiesPage.HandleLock | frontend/src/pages/Universities.tsx:92-106 | once the fetch returned, the id is appended to the locked list, dropped from the shortlist, and the locked tab is shown; otherwise nothing changes |
| Universities.UniversitiesPage.HandleUnlock | frontend/src/pages/Universities.tsx:108-123 | once confirmed and returned, the id moves from the locked list to the end of the shortlist; otherwise nothing changes |
| CrudUniversity.UniversityStatus.Name | backend/app/models/university.py:6-8 | the two statuses are sent as "shortlisted" and "locked" |
| CrudUniversity.FindFirst | backend/app/crud/crud_university.py:8-12 | the lookup finds the first row of the (user, university) pair, or none iff no row matches |
| CrudUniversity.AbsLookup | backend/app/crud/crud_university.py:8-12 | a pair is in the table's map iff the lookup finds a row, and it maps to that row's status |
| CrudUniversity.UserRows | backend/app/crud/crud_university.py:5-6 | the listing holds all and only the user's rows |
| CrudUniversity.UpsertedSetsPair | backend/app/crud/crud_university.py:20-36 | after the upsert the pair is present with the new status, whether its row was updated or inserted |
| CrudUniversity.UpsertedKeepsOther | backend/app/crud/crud_university.py:20-36 | the upsert leaves the presence and status of every other pair unchanged |
| CrudUniversity.Upserted | backend/app/crud/crud_university.py:14-36 | the table after `update_university_status`: the first row of the pair rewritten in place, or one row appended; its meaning is stated by `CrudUniversity.UpsertedSetsPair`, `CrudUniversity.UpsertedKeepsOther`, `CrudUniversity.UpsertedAbs` and `CrudUniversity.UpsertedKeepsUnique` |
| CrudUniversity.UpsertedAbs | backend/app/crud/crud_university.py:14-36 | after the upsert the pair maps to the new status, whatever it was before, and every other pair is unchanged |
| CrudUniversity.UpsertedKeepsUnique | backend/app/crud/crud_university.py:20-36 | at most one row per pair before the upsert gives at most one after |
| CrudUniversity.DeletedKeepsUnique | backend/app/crud/crud_university.py:38-44 | removal keeps at most one row per pair |
| CrudUniversity.Deleted | backend/app/crud/crud_university.py:38-44 | the table after `remove_university`: the first row of the pair taken out, or the table unchanged; its meaning is stated by `CrudUniversity.DeletedAbs`, `CrudUniversity.DeletedKeepsUnique` and `CrudUniversity.DuplicateSurvivesRemoval` |
| CrudUniversity.DeletedAbs | backend/app/crud/crud_university.py:38-44 | with one row per pair, removal takes exactly that pair out of the map |
| CrudUniversity.DuplicateSurvivesRemoval | backend/app/crud/crud_university.py:38-44 | with two rows for a pair, a removal deletes only the first, and the pair still looks selected |
| CrudUniversity.DeleteResponse | backend/app/api/v1/endpoints/universities.py:52-55 | a removal answers with the confirmation message iff it succeeded, and with a 404 otherwise |
| CrudUniversity.SelectionTable.GetUserUniversity | backend/app/crud/crud_university.py:8-12 | returns the pair's first row iff the pair is in the table, carrying the pair's status |
| CrudUniversity.SelectionTable.UpdateUniversityStatus | backend/app/crud/crud_university.py:14-36 | overwrites the first row's status in place, or appends exactly one row; the pair then has the new status and nothing else changes; uniqueness is kept |
| CrudUniversity.SelectionTable.RemoveUniversity | backend/app/crud/crud_university.py:38-44 | reports true iff the pair was present; deletes exactly one row then, and otherwise leaves the table unchanged |
| CrudUniversity.SelectionTable.RemoveSelection | backend/app/api/v1/endpoints/universities.py:37-55 | the endpoint deletes the pair and answers 404 iff it was not there |
| CrudOnboarding.Created | backend/app/crud/crud_onboarding.py:11-12 | the created record has every field: those in the body as given, the rest null |
| CrudOnboarding.Merged | backend/app/crud/crud_onboarding.py:20-22 | fields set in the body are assigned, null included, and every other stored field keeps its value |
| CrudOnboarding.SetAttrs | backend/app/crud/crud_onboarding.py:21-22 | assigning the body's fields one at a time, in any order, yields the merge |
| CrudOnboarding.CreatedIsMergedIntoNulls | backend/app/crud/crud_onboarding.py:11-22 | creating a record is updating an all-null record with the same body |
| CrudOnboarding.CreatedIdempotent | backend/app/crud/crud_onboarding.py:33 | re-dumping the full body in the upsert's create branch changes nothing |
| CrudOnboarding.MergedIdempotent | backend/app/crud/crud_onboarding.py:19-26 | sending the same body twice stores what sending it once stores |
| CrudOnboarding.FullBodyOverwrites | backend/app/crud/crud_onboarding.py:29-33 | a body that sets every field is stored as-is by both branches of the upsert |
| CrudOnboarding.FindUser | backend/app/crud/crud_onboarding.py:7-8 | the lookup finds the user's first record, or none iff the user has none |
| CrudOnboarding.OnboardingStore.GetByUserId | backend/app/crud/crud_onboarding.py:7-8 | returns a record of the user iff one exists |
| CrudOnboarding.OnboardingStore.Create | backend/app/crud/crud_onboarding.py:11-16 | appends one record holding every field of the body, unset ones null |
| CrudOnboarding.OnboardingStore.Update | backend/app/crud/crud_onboarding.py:19-26 | replaces the record by its merge with the body and keeps one complete record per user |
| CrudOnboarding.OnboardingStore.Upsert | backend/app/crud/crud_onboarding.py:29-33 | updates the user's record when there is one and creates it otherwise; the user then has exactly one record, holding the result |
| CrudOnboarding.OnboardingStore.PutOnboarding | backend/app/api/v1/endpoints/onboarding.py:21-33 | upserts the body and marks the user onboarded: the user's record is replaced in place by its merge, or one complete record is appended, and no other record changes; one record per user is kept |
| Onboarding.DefaultFormWellFormed | frontend/src/Onboarding.tsx:27-43 | the default form has every field, each holding its default ("not_taken" for both exams, "Not started" for the SOP, `''` for the text fields), and only the two years are `undefined` |
| Onboarding.Loaded | frontend/src/Onboarding.tsx:62-67 | the loaded form has every field, and a profile parsed from JSON gives a well-formed form |
| Onboarding.LoadedField | frontend/src/Onboarding.tsx:62-67 | field by field: fetched fields override the defaults; absent fields keep them; a null or missing year becomes `undefined` |
| Onboarding.LoadedKeepsNullStatus | frontend/src/Onboarding.tsx:62-67 | a stored null IELTS/TOEFL status replaces the "not_taken" default |
| Onboarding.Updated | frontend/src/Onboarding.tsx:74-76 | only the key changes; a null or `undefined` value is stored as `''`; the form stays well formed |
| Onboarding.RequestBody | frontend/src/Onboarding.tsx:84-90 | the object `saveProgress` and `handleSubmit` serialise, before `undefined` properties are dropped; stated field by field by `Onboarding.RequestBodyField` and as a whole by `Onboarding.RequestBodyFacts` |
| Onboarding.RequestBodyField | frontend/src/Onboarding.tsx:84-90 | field by field: each year is sent when truthy and as null otherwise; each score is sent when its status is "taken" and as null otherwise; every other field of the form is sent unchanged |
| Onboarding.RequestBodyFacts | frontend/src/Onboarding.tsx:84-90 | the body of a well-formed form has every field and no `undefined` value, and no non-null score whose exam is not "taken" |
| Onboarding.Sent | frontend/src/Onboarding.tsx:84-90 | the serialised body is JSON, sets every field for a well-formed form, and never carries a score for an exam not taken |
| Onboarding.SentField | frontend/src/Onboarding.tsx:84-90 | the value of each field in the body of a well-formed form |
| Onboarding.SentKeepsPlainField | frontend/src/Onboarding.tsx:85 | a field that is neither a year nor a score reaches the server as the form holds it |
| Onboarding.SaveThenLoad | frontend/src/Onboarding.tsx:62-90 | loading back what was saved gives the form again, except that a falsy year comes back `undefined` and a score of an exam not taken comes back null |
| Onboarding.SaveLoadSave | frontend/src/Onboarding.tsx:62-90 | saving the loaded-back form sends exactly the body sent before |
| Onboarding.OnboardingPage.constructor | frontend/src/Onboarding.tsx:52-55 | the wizard starts on step 1 with the default form, loading and not submitting |
| Onboarding.OnboardingPage.Load | frontend/src/Onboarding.tsx:57-72 | a fetched profile is merged into the form; a failed, empty or thrown fetch leaves the form; loading ends either way |
| Onboarding.OnboardingPage.Update | frontend/src/Onboarding.tsx:74-76 | the form becomes its update and stays well formed |
| Onboarding.OnboardingPage.SaveProgress | frontend/src/Onboarding.tsx:78-95 | the body sent is the form's serialised request body |
| Onboarding.OnboardingPage.NextStep | frontend/src/Onboarding.tsx:122-127 | below step 4 it saves the form and then advances by one; on step 4 it does nothing; the step stays in 1..4 |
| Onboarding.OnboardingPage.PrevStep | frontend/src/Onboarding.tsx:129-133 | above step 1 it goes back by one; on step 1 it does nothing |
| Onboarding.OnboardingPage.HandleSubmit | frontend/src/Onboarding.tsx:97-120 | sends the request body; goes to "/dashboard" iff the response is ok; `submitting` is reset however the request ends |
| ProtectedRoute.Guard | frontend/src/components/ProtectedRoute.tsx:11-32 | the session placeholder iff loading; "/login" iff loaded without a user; "/onboarding" iff the route requires onboarding and the user has not finished it; the page otherwise |
| ProtectedRoute.Path | frontend/src/App.tsx:17-43 | the login and onboarding routes sit at "/login" and "/onboarding" |
| ProtectedRoute.Protection | frontend/src/App.tsx:20-43 | which routes are wrapped in the guard and with which `requireOnboarded` flag; stated by `ProtectedRoute.Render` and `ProtectedRoute.OnboardingRequirement` |
| ProtectedRoute.Render | frontend/src/App.tsx:17-43 | the public routes always render; the guarded ones render as the guard decides, with their onboarding requirement |
| ProtectedRoute.OnboardingRequirement | frontend/src/App.tsx:20-43 | a signed-in user reaches the wizard, and reaches the dashboard and the universities page iff onboarded |
| ProtectedRoute.OnboardedReachesAll | frontend/src/App.tsx:17-43 | an onboarded user, once the session is checked, reaches every route |
| ProtectedRoute.RedirectTargetRenders | frontend/src/components/ProtectedRoute.tsx:24-30 | every redirect lands on a route that renders in the same session state |
| Sync.Selections | backend/app/api/v1/endpoints/universities.py:11-19 | the listing sends each row as its university id and status name, in table order |
| Sync.SelectionListed | frontend/src/pages/Universities.tsx:45-49 | with one row per pair, a selection is in the user's fetched list iff the table holds it with that status |
| Sync.LoadMirrors | frontend/src/pages/Universities.tsx:45-51 | the lists built on load are exactly the user's shortlisted and locked selections on the server |
| Sync.UserRowsDistinct | backend/app/crud/crud_university.py:5-6 | with one row per pair, the user's listing names each university at most once |
| Sync.LoadWellFormed | frontend/src/pages/Universities.tsx:45-51 | the lists built on load are well formed and mirror the table |
| Sync.ServeStatus | backend/app/crud/crud_university.py:14-44 | serving a request keeps one row per pair and changes only the clicked university's status |
| Sync.StepMirrors | frontend/src/pages/Universities.tsx:66-123 | a rendered click together with the request it sends keeps the page mirroring the table |
| Sync.RunMirrors | frontend/src/pages/Universities.tsx:66-123 | any run of rendered clicks, each served, keeps the page mirroring the table |
| Sync.LoadThenRunMirrors | frontend/src/pages/Universities.tsx:38-123 | from load through any run of rendered clicks, the lists stay well formed and equal to the server's selections |
| Sync.SentFollowsScoreRule | frontend/src/Onboarding.tsx:88-89 | the body of a well-formed form carries no score for an exam not taken |
| Sync.SavedProfileIsSentBody | backend/app/crud/crud_onboarding.py:29-33 | the wizard's body is stored exactly, whether the upsert updates or creates, and the stored profile keeps the score rule |
| Sync.DashboardSeesForm | frontend/src/Dashboard.tsx:77-129 | the dashboard rates the saved profile and lists its tasks as it would the filled-in form |
| Sync.SubmitOnboarding | frontend/src/Onboarding.tsx:97-120 | after a successful submit the user's only record holds the sent body, the page goes to "/dashboard", and the refreshed user passes the dashboard's guard; every other user's record stays where it was |

## Left out

- Rendering: the JSX markup, the CSS and the display texts. The only rendering rule modelled is the one that decides which buttons exist (`Universities.Enabled`).
- Asynchrony:
  - React state batching and the order in which overlapping requests finish are not modelled;
  - a double-clicked "Next" and stale closures are not modelled;
  - each handler runs to completion before the next click.
- Network outcomes: each fetch is an outcome that either threw or returned. A returned error status counts as returned, because `fetch` does not throw on it. A click whose fetch threw is taken to have sent nothing to the server (`Sync.RequestOf`), although the request might in fact have reached it.
- Sync.RequestOf: a click whose fetch returned is taken to be a request the server applied. The handlers never read `res.ok`, so a POST or DELETE answered with 401 or 500 still changes the page's lists while the table stays as it was; `Sync.StepMirrors`, `Sync.RunMirrors` and `Sync.LoadThenRunMirrors` hold only under this assumption.
- `window.confirm` is a boolean input of `HandleUnlock`.
- The onboarding fetch on the universities page only has its response discarded, so it is not modelled. The catalog is an input list of ids, because it is a static import.
- Authentication is not modelled:
  - cookies, JWT, password hashing, `checkAuth` and the `/auth` endpoints are left out;
  - the user the dashboard's guard sees after submit is read from the store's onboarded set (`Sync.SubmitOnboarding`).
- Numbers: the form's values are strings, integers, `null` or `undefined`. `NaN`, floats and the numeric parsing of the year inputs are not modelled.
- Pydantic validation and coercion: a request body is taken to be a valid schema object, and server-side type errors (422 replies) are not modelled.
- The `id` and `user_id` keys of a fetched profile are not modelled. The wizard spreads them into its PUT body, where the schema ignores them.
- Database commits, refreshes, transactions and concurrent writers are not modelled. Each CRUD call is one atomic step on a sequence of rows in insertion order.
- The voice assistant and its direct status writes are not part of this model, nor is the wizard's choice between manual and voice mode.
- The database rejecting a second profile for a user is not modelled. That rejection comes from the unique constraint on `user_onboarding.user_id`. `CrudOnboarding.OnboardingStore.Valid` states one record per user as an invariant instead, and the upsert is proved to keep it.

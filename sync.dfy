/**
 * How the pages and the backend stay in step: the universities page's two
 * lists against the selection table, and the onboarding form against the
 * stored profile, the dashboard that reads it and the route guard that
 * lets the user through afterwards.
 */
module Sync {
  import opened Wire
  import U = Universities
  import CU = CrudUniversity
  import O = Onboarding
  import CO = CrudOnboarding
  import D = Dashboard
  import PR = ProtectedRoute

  /** The JSON of `GET /universities`: each row as `{university_id, status}`, in table order. */
  function Selections(rows: seq<CU.UserUniversity>): (sels: seq<Selection>)
    ensures |sels| == |rows|
    ensures forall i :: 0 <= i < |rows| ==> sels[i] == Selection(rows[i].universityId, rows[i].status.Name())
  {
    seq(|rows|, i requires 0 <= i < |rows| => Selection(rows[i].universityId, rows[i].status.Name()))
  }

  /** The status the table holds for the user's selection of `x`, if any. */
  function StatusAt(rows: seq<CU.UserUniversity>, u: int, x: string): Option<CU.UniversityStatus>
  {
    if (u, x) in CU.Abs(rows) then Some(CU.Abs(rows)[(u, x)]) else None
  }

  /** The page's lists are exactly the user's shortlisted and locked selections on the server. */
  ghost predicate Mirrors(p: U.Page, rows: seq<CU.UserUniversity>, u: int)
  {
    forall x ::
      && (x in p.shortlisted <==> StatusAt(rows, u, x) == Some(CU.Shortlisted))
      && (x in p.locked <==> StatusAt(rows, u, x) == Some(CU.Locked))
  }

  /** A selection appears in the user's fetched list iff the table holds it with that status. */
  lemma SelectionListed(rows: seq<CU.UserUniversity>, u: int, x: string, s: CU.UniversityStatus)
    requires CU.UniquePairs(rows)
    ensures Selection(x, s.Name()) in Selections(CU.UserRows(rows, u)) <==> StatusAt(rows, u, x) == Some(s)
  {
    var mine := CU.UserRows(rows, u);
    var sels := Selections(mine);
    if Selection(x, s.Name()) in sels {
      var i :| 0 <= i < |sels| && sels[i] == Selection(x, s.Name());
      assert mine[i] in rows;
      var j :| 0 <= j < |rows| && rows[j] == mine[i];
      CU.AbsOfUnique(rows, j);
      assert CU.Key(rows[j]) == (u, x);
    }
    if StatusAt(rows, u, x) == Some(s) {
      CU.AbsLookup(rows, (u, x));
      var k := CU.FindFirst(rows, u, x).value;
      assert rows[k] in mine;
      var i :| 0 <= i < |mine| && mine[i] == rows[k];
      assert sels[i] == Selection(x, s.Name());
    }
  }

  /** The lists the page builds from `GET /universities` mirror the table. */
  lemma LoadMirrors(rows: seq<CU.UserUniversity>, u: int, tab: U.Tab, catalog: seq<string>)
    requires CU.UniquePairs(rows)
    ensures var sels := Selections(CU.UserRows(rows, u));
      Mirrors(U.Page(tab, catalog, U.IdsWithStatus(sels, "shortlisted"), U.IdsWithStatus(sels, "locked")), rows, u)
  {
    var sels := Selections(CU.UserRows(rows, u));
    forall x
      ensures x in U.IdsWithStatus(sels, "shortlisted") <==> StatusAt(rows, u, x) == Some(CU.Shortlisted)
      ensures x in U.IdsWithStatus(sels, "locked") <==> StatusAt(rows, u, x) == Some(CU.Locked)
    {
      SelectionListed(rows, u, x, CU.Shortlisted);
      SelectionListed(rows, u, x, CU.Locked);
    }
  }

  /** Dropping the first row keeps one row per pair. */
  lemma UniqueTail(rows: seq<CU.UserUniversity>)
    requires CU.UniquePairs(rows) && rows != []
    ensures CU.UniquePairs(rows[1..])
  {
    forall i, j | 0 <= i < j < |rows[1..]|
      ensures CU.Key(rows[1..][i]) != CU.Key(rows[1..][j])
    {
      assert rows[1..][i] == rows[i + 1] && rows[1..][j] == rows[j + 1];
    }
  }

  /** With one row per pair, no later row has the first row's pair. */
  lemma HeadPairUnique(rows: seq<CU.UserUniversity>, t: CU.UserUniversity)
    requires CU.UniquePairs(rows) && rows != [] && t in rows[1..]
    ensures CU.Key(t) != CU.Key(rows[0])
  {
    var m :| 0 <= m < |rows[1..]| && rows[1..][m] == t;
    assert rows[m + 1] == t;
  }

  /** A row whose university no later row names can go in front of distinct rows. */
  lemma ConsDistinct(r0: CU.UserUniversity, rest: seq<CU.UserUniversity>)
    requires U.DistinctUniversities(Selections(rest))
    requires forall t :: t in rest ==> t.universityId != r0.universityId
    ensures U.DistinctUniversities(Selections([r0] + rest))
  {
    var rs := [r0] + rest;
    var ss, sr := Selections(rs), Selections(rest);
    forall i, j | 0 <= i < j < |ss|
      ensures ss[i].universityId != ss[j].universityId
    {
      assert rs[j] == rest[j - 1];
      assert ss[j].universityId == sr[j - 1].universityId;
      if i > 0 {
        assert rs[i] == rest[i - 1];
        assert ss[i].universityId == sr[i - 1].universityId;
      } else {
        assert rest[j - 1] in rest;
      }
    }
  }

  /** With one row per pair, the user's rows name each university at most once. */
  lemma {:induction false} UserRowsDistinct(rows: seq<CU.UserUniversity>, u: int)
    requires CU.UniquePairs(rows)
    ensures U.DistinctUniversities(Selections(CU.UserRows(rows, u)))
  {
    if rows != [] {
      var rest := CU.UserRows(rows[1..], u);
      UniqueTail(rows);
      UserRowsDistinct(rows[1..], u);
      if rows[0].userId == u {
        forall t | t in rest
          ensures t.universityId != rows[0].universityId
        {
          HeadPairUnique(rows, t);
        }
        ConsDistinct(rows[0], rest);
        assert CU.UserRows(rows, u) == [rows[0]] + rest;
      } else {
        assert CU.UserRows(rows, u) == rest;
      }
    }
  }

  /** Opening the page on a table with one row per pair gives well-formed lists that mirror it. */
  lemma LoadWellFormed(rows: seq<CU.UserUniversity>, u: int, tab: U.Tab, catalog: seq<string>)
    requires CU.UniquePairs(rows)
    ensures var sels := Selections(CU.UserRows(rows, u));
      var p := U.Page(tab, catalog, U.IdsWithStatus(sels, "shortlisted"), U.IdsWithStatus(sels, "locked"));
      U.WellFormed(p) && Mirrors(p, rows, u)
  {
    var sels := Selections(CU.UserRows(rows, u));
    UserRowsDistinct(rows, u);
    U.LoadedListsWellFormed(sels);
    LoadMirrors(rows, u, tab, catalog);
  }

  /**
   * From opening the page on a table with one row per pair, through any run
   * of rendered clicks whose requests the server handled, the page's lists
   * stay well formed and equal to the user's selections on the server.
   */
  lemma LoadThenRunMirrors(rows: seq<CU.UserUniversity>, u: int, catalog: seq<string>, actions: seq<U.Action>)
    requires CU.UniquePairs(rows)
    requires var sels := Selections(CU.UserRows(rows, u));
      U.EnabledRun(U.Page(U.All, catalog, U.IdsWithStatus(sels, "shortlisted"), U.IdsWithStatus(sels, "locked")), actions)
    ensures var sels := Selections(CU.UserRows(rows, u));
      var p := U.Page(U.All, catalog, U.IdsWithStatus(sels, "shortlisted"), U.IdsWithStatus(sels, "locked"));
      && U.WellFormed(U.Run(p, actions))
      && CU.UniquePairs(ServerRun(p, rows, u, actions))
      && Mirrors(U.Run(p, actions), ServerRun(p, rows, u, actions), u)
  {
    var sels := Selections(CU.UserRows(rows, u));
    var p := U.Page(U.All, catalog, U.IdsWithStatus(sels, "shortlisted"), U.IdsWithStatus(sels, "locked"));
    LoadWellFormed(rows, u, U.All, catalog);
    U.EnabledRunKeepsWellFormed(p, actions);
    RunMirrors(p, rows, u, actions);
  }

  /** The request a click sends to the server. */
  datatype Request = Post(universityId: string, status: CU.UniversityStatus) | Delete(universityId: string)

  /**
   * The request each click makes: removing from or adding to the shortlist,
   * locking, and unlocking back to the shortlist. A click whose fetch threw,
   * and a declined unlock, are taken to reach the server with nothing; a
   * click whose fetch returned is taken to be a request the server applied,
   * since the handlers do not look at the response's status.
   */
  function RequestOf(p: U.Page, a: U.Action): Option<Request>
  {
    match a
    case TabClick(_) => None
    case ShortlistClick(id, returned) =>
      if !returned then None
      else if id in p.shortlisted then Some(Delete(id))
      else Some(Post(id, CU.Shortlisted))
    case LockClick(id, returned) => if returned then Some(Post(id, CU.Locked)) else None
    case UnlockClick(id, confirmed, returned) =>
      if confirmed && returned then Some(Post(id, CU.Shortlisted)) else None
  }

  /** The table after the server handles the request for user `u`. */
  function Serve(rows: seq<CU.UserUniversity>, u: int, r: Option<Request>): seq<CU.UserUniversity>
  {
    match r
    case None => rows
    case Some(Post(x, s)) => CU.Upserted(rows, u, x, s)
    case Some(Delete(x)) => CU.Deleted(rows, u, x)
  }

  /** Serving a request keeps one row per pair, and changes only the clicked university's status. */
  lemma ServeStatus(rows: seq<CU.UserUniversity>, u: int, r: Request)
    requires CU.UniquePairs(rows)
    ensures CU.UniquePairs(Serve(rows, u, Some(r)))
    ensures forall x :: x != r.universityId ==> StatusAt(Serve(rows, u, Some(r)), u, x) == StatusAt(rows, u, x)
    ensures r.Post? ==> StatusAt(Serve(rows, u, Some(r)), u, r.universityId) == Some(r.status)
    ensures r.Delete? ==> StatusAt(Serve(rows, u, Some(r)), u, r.universityId) == None
  {
    match r
    case Post(x, s) =>
      CU.UpsertedAbs(rows, u, x, s);
      CU.UpsertedKeepsUnique(rows, u, x, s);
    case Delete(x) =>
      CU.DeletedAbs(rows, u, x);
      CU.DeletedKeepsUnique(rows, u, x);
  }

  /** A click the page renders, served by the backend, keeps the page and the table in step. */
  lemma StepMirrors(p: U.Page, rows: seq<CU.UserUniversity>, u: int, a: U.Action)
    requires U.WellFormed(p) && U.Enabled(p, a)
    requires CU.UniquePairs(rows) && Mirrors(p, rows, u)
    ensures CU.UniquePairs(Serve(rows, u, RequestOf(p, a)))
    ensures Mirrors(U.Apply(p, a), Serve(rows, u, RequestOf(p, a)), u)
  {
    var r := RequestOf(p, a);
    if r.Some? {
      ServeStatus(rows, u, r.value);
      if a.ShortlistClick? && a.id !in p.shortlisted {
        assert a.id !in p.locked;
      }
      if a.LockClick? {
        assert a.id in p.shortlisted;
      }
    }
  }

  /** The table after the server handled every request of a run of clicks. */
  function ServerRun(p: U.Page, rows: seq<CU.UserUniversity>, u: int, actions: seq<U.Action>): seq<CU.UserUniversity>
    decreases |actions|
  {
    if actions == [] then rows
    else ServerRun(U.Apply(p, actions[0]), Serve(rows, u, RequestOf(p, actions[0])), u, actions[1..])
  }

  /** Any run of rendered clicks, each served, leaves the page mirroring the table. */
  lemma {:induction false} RunMirrors(p: U.Page, rows: seq<CU.UserUniversity>, u: int, actions: seq<U.Action>)
    requires U.WellFormed(p) && U.EnabledRun(p, actions)
    requires CU.UniquePairs(rows) && Mirrors(p, rows, u)
    ensures CU.UniquePairs(ServerRun(p, rows, u, actions))
    ensures Mirrors(U.Run(p, actions), ServerRun(p, rows, u, actions), u)
    decreases |actions|
  {
    if actions != [] {
      StepMirrors(p, rows, u, actions[0]);
      U.EnabledActionKeepsWellFormed(p, actions[0]);
      RunMirrors(U.Apply(p, actions[0]), Serve(rows, u, RequestOf(p, actions[0])), u, actions[1..]);
    }
  }

  /** A stored profile holds no score for an exam that was not taken. */
  predicate ScoresFollowStatus(fields: JsObject)
  {
    forall k :: O.IsScore(k) && k in fields && fields[k] != Null ==> Get(fields, O.StatusOf(k)) == Str("taken")
  }

  /** The body a well-formed form sends never carries a score for an exam not taken. */
  lemma SentFollowsScoreRule(form: JsObject)
    requires O.WellFormed(form)
    ensures ScoresFollowStatus(O.Sent(form))
  {
    forall k | O.IsScore(k)
      ensures O.Sent(form)[k] != Null ==> Get(O.Sent(form), O.StatusOf(k)) == Str("taken")
    {
      O.SentField(form, k);
      O.SentField(form, O.StatusOf(k));
    }
  }

  /**
   * The body a well-formed form sends sets every field, so the upsert
   * stores exactly that body whether it updates or creates, and the stored
   * profile keeps the score rule.
   */
  lemma SavedProfileIsSentBody(records: seq<CO.OnboardingRecord>, u: int, form: JsObject)
    requires O.WellFormed(form)
    ensures CO.Complete(O.Sent(form))
    ensures CO.UpsertedFields(records, u, O.Sent(form)) == O.Sent(form)
    ensures ScoresFollowStatus(O.Sent(form))
  {
    SentFollowsScoreRule(form);
    match CO.FindUser(records, u)
    case Some(k) => CO.FullBodyOverwrites(records[k].fields, O.Sent(form));
    case None => CO.FullBodyOverwrites(map[], O.Sent(form));
  }

  /**
   * The dashboard rates the saved profile and lists its tasks exactly as it
   * would the form that was filled in.
   */
  lemma DashboardSeesForm(form: JsObject, sels: seq<Selection>)
    requires O.WellFormed(form)
    ensures D.HeldSignals(O.Sent(form)) == D.HeldSignals(form)
    ensures D.NewTasks(O.Sent(form), sels) == D.NewTasks(form, sels)
  {
    var sent := O.Sent(form);
    O.SentKeepsPlainField(form, GpaOrPercentage);
    O.SentKeepsPlainField(form, IeltsToeflStatus);
    O.SentKeepsPlainField(form, GreGmatStatus);
    O.SentKeepsPlainField(form, SopStatus);
    O.SentKeepsPlainField(form, IntendedDegree);
    D.SameReading(sent, form, sels);
  }

  /**
   * Submitting the wizard end to end: the page sends its body, the server
   * stores it and marks the user onboarded, the page goes to the dashboard,
   * and the refreshed session passes the dashboard's guard. Every other
   * user's profile stays where it was.
   */
  method SubmitOnboarding(page: O.OnboardingPage, store: CO.OnboardingStore, u: int)
    returns (destination: Option<string>, user: PR.User)
    requires store.Valid() && O.WellFormed(page.form)
    modifies page`submitting, store
    ensures store.Valid()
    ensures CO.FindUser(store.records, u).Some?
    ensures store.records[CO.FindUser(store.records, u).value].fields == O.Sent(page.form)
    ensures ScoresFollowStatus(store.records[CO.FindUser(store.records, u).value].fields)
    ensures |store.records| >= |old(store.records)|
    ensures forall i :: 0 <= i < |old(store.records)| && old(store.records)[i].userId != u ==>
      store.records[i] == old(store.records)[i]
    ensures destination == Some("/dashboard")
    ensures user == PR.User(u, true)
    ensures PR.Render(PR.DashboardRoute, false, Some(user)) == PR.Children
  {
    var sent := O.Sent(page.form);
    SavedProfileIsSentBody(store.records, u, page.form);
    var record := store.PutOnboarding(u, sent);
    var body;
    body, destination := page.HandleSubmit(Returned(true));
    user := PR.User(u, u in store.onboarded);
  }
}

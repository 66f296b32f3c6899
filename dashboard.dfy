/**
 * The progression rules of the dashboard page: the profile-strength rating,
 * the advising stage, the stage tracker's step classes and the recommended
 * task list with its toggle.
 */
module Dashboard {
  import opened Wire

  // ---------------------------------------------------------------------------
  // Profile strength

  datatype Strength = Strength(title: string, cssClass: string)

  const WeakStrength := Strength("Weak", "strength-weak")
  const StrongStrength := Strength("Strong", "strength-strong")
  const AverageStrength := Strength("Average", "strength-average")
  const NeedsWorkStrength := Strength("Needs Work", "strength-weak")

  /** The four profile signals the strength rating counts. */
  datatype Signal = GpaGiven | LanguageTestTaken | AptitudeTestTaken | SopReady

  const AllSignals: seq<Signal> := [GpaGiven, LanguageTestTaken, AptitudeTestTaken, SopReady]

  predicate Holds(d: JsObject, s: Signal)
  {
    match s
    case GpaGiven => Truthy(Get(d, GpaOrPercentage))
    case LanguageTestTaken => Get(d, IeltsToeflStatus) == Str("taken")
    case AptitudeTestTaken => Get(d, GreGmatStatus) == Str("taken")
    case SopReady => Get(d, SopStatus) == Str("Ready")
  }

  /** The signals of `ss` that hold of `d`, in the order of `ss`. */
  function HeldAmong(d: JsObject, ss: seq<Signal>): (held: seq<Signal>)
    ensures |held| <= |ss|
    ensures forall s :: s in held <==> s in ss && Holds(d, s)
  {
    if ss == [] then []
    else (if Holds(d, ss[0]) then [ss[0]] else []) + HeldAmong(d, ss[1..])
  }

  /** The signals of the profile that count towards its strength. */
  function HeldSignals(d: JsObject): seq<Signal>
  {
    HeldAmong(d, AllSignals)
  }

  /** The number of held signals is the sum of the four one-point checks. */
  lemma {:induction false} HeldSignalsCount(d: JsObject)
    ensures |HeldSignals(d)| ==
      (if Holds(d, GpaGiven) then 1 else 0) + (if Holds(d, LanguageTestTaken) then 1 else 0)
      + (if Holds(d, AptitudeTestTaken) then 1 else 0) + (if Holds(d, SopReady) then 1 else 0)
  {
    var s0 := AllSignals;
    var s1 := [LanguageTestTaken, AptitudeTestTaken, SopReady];
    var s2 := [AptitudeTestTaken, SopReady];
    var s3 := [SopReady];
    assert s0[1..] == s1 && s1[1..] == s2 && s2[1..] == s3 && s3[1..] == [];
    assert |HeldAmong(d, s3)| == (if Holds(d, SopReady) then 1 else 0);
    assert |HeldAmong(d, s2)| == (if Holds(d, AptitudeTestTaken) then 1 else 0) + |HeldAmong(d, s3)|;
    assert |HeldAmong(d, s1)| == (if Holds(d, LanguageTestTaken) then 1 else 0) + |HeldAmong(d, s2)|;
    assert |HeldAmong(d, s0)| == (if Holds(d, GpaGiven) then 1 else 0) + |HeldAmong(d, s1)|;
  }

  /** Two profiles on which every signal agrees have the same held signals. */
  lemma {:induction false} HeldAmongAgrees(d1: JsObject, d2: JsObject, ss: seq<Signal>)
    requires forall s :: Holds(d1, s) <==> Holds(d2, s)
    ensures HeldAmong(d1, ss) == HeldAmong(d2, ss)
  {
    if ss != [] {
      HeldAmongAgrees(d1, d2, ss[1..]);
    }
  }

  /**
   * The rating shown on the dashboard. Without a profile it is "Weak";
   * otherwise a score counts the held signals: three or more is "Strong",
   * one or two "Average", none "Needs Work" (styled like "Weak").
   */
  method ProfileStrength(data: Option<JsObject>) returns (strength: Strength)
    ensures strength in {WeakStrength, StrongStrength, AverageStrength, NeedsWorkStrength}
    ensures strength == WeakStrength <==> data.None?
    ensures data.Some? ==> (strength == StrongStrength <==> |HeldSignals(data.value)| >= 3)
    ensures data.Some? ==> (strength == AverageStrength <==> 1 <= |HeldSignals(data.value)| <= 2)
    ensures data.Some? ==> (strength == NeedsWorkStrength <==> |HeldSignals(data.value)| == 0)
  {
    if data.None? {
      return WeakStrength;
    }
    var d := data.value;
    var score := 0;
    if Truthy(Get(d, GpaOrPercentage)) {
      score := score + 1;
    }
    if Get(d, IeltsToeflStatus) == Str("taken") {
      score := score + 1;
    }
    if Get(d, GreGmatStatus) == Str("taken") {
      score := score + 1;
    }
    if Get(d, SopStatus) == Str("Ready") {
      score := score + 1;
    }
    HeldSignalsCount(d);
    assert score == |HeldSignals(d)|;
    if score >= 3 {
      return StrongStrength;
    }
    if score >= 1 {
      return AverageStrength;
    }
    return NeedsWorkStrength;
  }

  // ---------------------------------------------------------------------------
  // Advising stage

  predicate HasStatus(sels: seq<Selection>, status: string)
  {
    exists i :: 0 <= i < |sels| && sels[i].status == status
  }

  /** `sels.filter(s => s.status === status).length` */
  function CountStatus(sels: seq<Selection>, status: string): (n: nat)
    ensures n <= |sels|
    ensures n > 0 <==> HasStatus(sels, status)
  {
    if sels == [] then 0
    else
      assert HasStatus(sels, status) <==> sels[0].status == status || HasStatus(sels[1..], status) by {
        if HasStatus(sels[1..], status) {
          var i :| 0 <= i < |sels[1..]| && sels[1..][i].status == status;
          assert sels[i + 1].status == status;
        }
      }
      (if sels[0].status == status then 1 else 0) + CountStatus(sels[1..], status)
  }

  /**
   * The count adds up over concatenation; with the one-selection case, which
   * counts 1 exactly when the status matches, this fixes it as the length of
   * the filtered list.
   */
  lemma {:induction false} CountStatusAppend(a: seq<Selection>, b: seq<Selection>, status: string)
    ensures CountStatus(a + b, status) == CountStatus(a, status) + CountStatus(b, status)
  {
    if a == [] {
      assert a + b == b;
    } else {
      assert (a + b)[1..] == a[1..] + b;
      CountStatusAppend(a[1..], b, status);
    }
  }

  /**
   * The stage number of the dashboard: 4 once any university is locked,
   * whatever is shortlisted; otherwise 3 once any is shortlisted; otherwise 2.
   */
  function DetermineStage(sels: seq<Selection>): (stage: int)
    ensures 2 <= stage <= 4
    ensures stage == 4 <==> HasStatus(sels, "locked")
    ensures stage == 3 <==> !HasStatus(sels, "locked") && HasStatus(sels, "shortlisted")
    ensures stage == 2 <==> !HasStatus(sels, "locked") && !HasStatus(sels, "shortlisted")
  {
    var shortlisted := CountStatus(sels, "shortlisted");
    var locked := CountStatus(sels, "locked");
    if locked > 0 then 4
    else if shortlisted > 0 then 3
    else 2
  }

  /** The class of step `stageNum` (1-based) in the stage tracker. */
  function StageClass(stageNum: int, currentStage: int): (cls: string)
    ensures cls == "completed" <==> stageNum < currentStage
    ensures cls == "active" <==> stageNum == currentStage
    ensures cls == "" <==> stageNum > currentStage
  {
    var afterFirst := if stageNum < currentStage then "completed" else "";
    if stageNum == currentStage then "active" else afterFirst
  }

  /**
   * Of the tracker's four steps, "Profile Setup" is always completed and
   * exactly the current stage is active.
   */
  lemma StageTrackerShape(sels: seq<Selection>)
    ensures StageClass(1, DetermineStage(sels)) == "completed"
    ensures forall k :: 1 <= k <= 4 ==> (StageClass(k, DetermineStage(sels)) == "active" <==> k == DetermineStage(sels))
  {
  }

  // ---------------------------------------------------------------------------
  // Recommended tasks

  datatype Todo = Todo(id: int, text: string, completed: bool)

  /** The standing task every dashboard starts with. */
  const ResearchTask := Todo(1, "Research top universities for your major", false)

  const LanguageTask := Todo(2, "Register for IELTS/TOEFL", false)
  const AptitudeTask := Todo(3, "Check GRE/GMAT requirements", false)
  const DraftSopTask := Todo(4, "Draft your Statement of Purpose", false)
  const FinalizeSopTask := Todo(4, "Finalize SOP", false)
  const ApplyTask := Todo(5, "Start application for your locked university", false)
  const LockTask := Todo(6, "Lock your target university to start applying", false)
  const ShortlistTask := Todo(7, "Shortlist at least 3 universities", false)

  predicate HasId(ts: seq<Todo>, id: int)
  {
    exists i :: 0 <= i < |ts| && ts[i].id == id
  }

  predicate UniqueIds(ts: seq<Todo>)
  {
    forall i, j :: 0 <= i < j < |ts| ==> ts[i].id != ts[j].id
  }

  /** `prev.filter(t => t.id === 1)` */
  function Standing(ts: seq<Todo>): (r: seq<Todo>)
    ensures |r| <= |ts|
    ensures forall t :: t in r <==> t in ts && t.id == 1
  {
    if ts == [] then []
    else (if ts[0].id == 1 then [ts[0]] else []) + Standing(ts[1..])
  }

  /** The single selection-priority task: apply, else lock, else shortlist. */
  function SelectionTask(sels: seq<Selection>): (t: Todo)
    ensures t == ApplyTask <==> HasStatus(sels, "locked")
    ensures t == LockTask <==> !HasStatus(sels, "locked") && CountStatus(sels, "shortlisted") >= 3
    ensures t == ShortlistTask <==> !HasStatus(sels, "locked") && CountStatus(sels, "shortlisted") < 3
  {
    var shortlistedCount := CountStatus(sels, "shortlisted");
    var lockedCount := CountStatus(sels, "locked");
    if lockedCount > 0 then ApplyTask
    else if shortlistedCount >= 3 then LockTask
    else ShortlistTask
  }

  /** The language-test task, when no IELTS/TOEFL has been taken. */
  function LanguagePart(d: JsObject): seq<Todo>
  {
    if Get(d, IeltsToeflStatus) == Str("not_taken") then [LanguageTask] else []
  }

  /** The aptitude-test task, when no GRE/GMAT has been taken and the goal is not a Bachelor's. */
  function AptitudePart(d: JsObject): seq<Todo>
  {
    if Get(d, GreGmatStatus) == Str("not_taken") && Get(d, IntendedDegree) != Str("Bachelor's") then [AptitudeTask] else []
  }

  /** At most one SOP task: draft it when not started, finalize it when drafted. */
  function SopPart(d: JsObject): seq<Todo>
  {
    if Get(d, SopStatus) == Str("Not started") then [DraftSopTask]
    else if Get(d, SopStatus) == Str("Draft") then [FinalizeSopTask]
    else []
  }

  /**
   * Tasks generated from a profile and the selections, in their fixed
   * order: the language-test task, the aptitude-test task, at most one SOP
   * task, and last exactly one selection task.
   */
  function NewTasks(d: JsObject, sels: seq<Selection>): (r: seq<Todo>)
    ensures 1 <= |r| <= 4
    ensures r[|r| - 1] == SelectionTask(sels)
  {
    LanguagePart(d) + AptitudePart(d) + SopPart(d) + [SelectionTask(sels)]
  }

  /**
   * The dashboard reads five fields of the profile: two profiles that agree
   * on them get the same rating and the same tasks.
   */
  lemma SameReading(d1: JsObject, d2: JsObject, sels: seq<Selection>)
    requires Get(d1, GpaOrPercentage) == Get(d2, GpaOrPercentage)
    requires Get(d1, IeltsToeflStatus) == Get(d2, IeltsToeflStatus)
    requires Get(d1, GreGmatStatus) == Get(d2, GreGmatStatus)
    requires Get(d1, IntendedDegree) == Get(d2, IntendedDegree)
    requires Get(d1, SopStatus) == Get(d2, SopStatus)
    ensures HeldSignals(d1) == HeldSignals(d2)
    ensures NewTasks(d1, sels) == NewTasks(d2, sels)
  {
    forall s
      ensures Holds(d1, s) <==> Holds(d2, s)
    {
    }
    HeldAmongAgrees(d1, d2, AllSignals);
    assert LanguagePart(d1) == LanguagePart(d2);
    assert AptitudePart(d1) == AptitudePart(d2);
    assert SopPart(d1) == SopPart(d2);
  }

  /**
   * Generated tasks ahead of the selection task: each part holds at most one task,
   * so a task's id is fixed by the part its position falls in.
   */
  lemma HeadIds(d: JsObject)
    ensures var a, b, c := LanguagePart(d), AptitudePart(d), SopPart(d);
      var h := a + b + c;
      && |a| <= 1 && |b| <= 1 && |c| <= 1
      && (forall i :: 0 <= i < |h| ==> !h[i].completed && h[i].id == (if i < |a| then 2 else if i < |a| + |b| then 3 else 4))
  {
    var a, b, c := LanguagePart(d), AptitudePart(d), SopPart(d);
    var h := a + b + c;
    forall i | 0 <= i < |h|
      ensures !h[i].completed && h[i].id == (if i < |a| then 2 else if i < |a| + |b| then 3 else 4)
    {
      if i < |a| {
        assert h[i] == a[i];
      } else if i < |a| + |b| {
        assert h[i] == b[i - |a|];
      } else {
        assert h[i] == c[i - |a| - |b|];
      }
    }
  }

  /**
   * Generated tasks are fresh (not completed), have ids 2 to 7 in strictly
   * increasing order, and only the last one is a selection task (id 5 to 7).
   */
  lemma NewTasksOrdered(d: JsObject, sels: seq<Selection>)
    ensures var r := NewTasks(d, sels);
      && (forall i :: 0 <= i < |r| ==> !r[i].completed && 2 <= r[i].id <= 7)
      && (forall i, j :: 0 <= i < j < |r| ==> r[i].id < r[j].id)
      && (forall i :: 0 <= i < |r| - 1 ==> r[i].id <= 4)
  {
    var r := NewTasks(d, sels);
    var head := LanguagePart(d) + AptitudePart(d) + SopPart(d);
    var last := SelectionTask(sels);
    assert r == head + [last];
    HeadIds(d);
    assert forall i :: 0 <= i < |head| ==> r[i] == head[i];
    assert r[|head|] == last && 5 <= last.id <= 7 && !last.completed;
  }

  /** A list has an entry with the id iff one of its members carries it. */
  lemma HasIdMember(ts: seq<Todo>, id: int)
    ensures HasId(ts, id) <==> exists t :: t in ts && t.id == id
  {
    if HasId(ts, id) {
      var i :| 0 <= i < |ts| && ts[i].id == id;
      assert ts[i] in ts;
    }
  }

  /** A task is generated iff one of the four parts holds it. */
  lemma InNewTasks(d: JsObject, sels: seq<Selection>, t: Todo)
    ensures t in NewTasks(d, sels) <==>
      t in LanguagePart(d) || t in AptitudePart(d) || t in SopPart(d) || t == SelectionTask(sels)
  {
    assert NewTasks(d, sels) == LanguagePart(d) + AptitudePart(d) + SopPart(d) + [SelectionTask(sels)];
  }

  /** The language-test task is generated iff IELTS/TOEFL is "not_taken"; it is the only id 2. */
  lemma LanguageTaskPresence(d: JsObject, sels: seq<Selection>)
    ensures var r := NewTasks(d, sels);
      && (LanguageTask in r <==> Get(d, IeltsToeflStatus) == Str("not_taken"))
      && (HasId(r, 2) <==> LanguageTask in r)
  {
    var r := NewTasks(d, sels);
    InNewTasks(d, sels, LanguageTask);
    HasIdMember(r, 2);
    if HasId(r, 2) {
      var t :| t in r && t.id == 2;
      InNewTasks(d, sels, t);
    }
  }

  /**
   * The aptitude-test task is generated iff GRE/GMAT is "not_taken" and the
   * intended degree is not "Bachelor's"; it is the only id 3.
   */
  lemma AptitudeTaskPresence(d: JsObject, sels: seq<Selection>)
    ensures var r := NewTasks(d, sels);
      && (AptitudeTask in r <==> Get(d, GreGmatStatus) == Str("not_taken") && Get(d, IntendedDegree) != Str("Bachelor's"))
      && (HasId(r, 3) <==> AptitudeTask in r)
  {
    var r := NewTasks(d, sels);
    InNewTasks(d, sels, AptitudeTask);
    HasIdMember(r, 3);
    if HasId(r, 3) {
      var t :| t in r && t.id == 3;
      InNewTasks(d, sels, t);
    }
  }

  /**
   * The SOP task: "Draft" iff the SOP is "Not started", "Finalize" iff it is
   * a "Draft", and nothing with id 4 otherwise.
   */
  lemma SopTaskPresence(d: JsObject, sels: seq<Selection>)
    ensures var r := NewTasks(d, sels);
      && (DraftSopTask in r <==> Get(d, SopStatus) == Str("Not started"))
      && (FinalizeSopTask in r <==> Get(d, SopStatus) == Str("Draft"))
      && (HasId(r, 4) <==> DraftSopTask in r || FinalizeSopTask in r)
  {
    var r := NewTasks(d, sels);
    InNewTasks(d, sels, DraftSopTask);
    InNewTasks(d, sels, FinalizeSopTask);
    HasIdMember(r, 4);
    if HasId(r, 4) {
      var t :| t in r && t.id == 4;
      InNewTasks(d, sels, t);
    }
  }

  /**
   * A profile that leaves `gre_gmat_status` unset gets no aptitude-test
   * task: the check compares against "not_taken", and the unset field
   * arrives either as `null` (the server serialises every schema field) or,
   * for a profile built elsewhere, as `undefined`.
   */
  lemma AbsentGreStatusGivesNoAptitudeTask()
    ensures var d := map[IeltsToeflStatus := Str("not_taken"), IntendedDegree := Str("Master's"), SopStatus := Str("Not started")];
      NewTasks(d, []) == [LanguageTask, DraftSopTask, ShortlistTask]
    ensures var d := map[IeltsToeflStatus := Str("not_taken"), GreGmatStatus := Null, IntendedDegree := Str("Master's"), SopStatus := Str("Not started")];
      NewTasks(d, []) == [LanguageTask, DraftSopTask, ShortlistTask]
  {
    var d := map[IeltsToeflStatus := Str("not_taken"), IntendedDegree := Str("Master's"), SopStatus := Str("Not started")];
    assert CountStatus([], "locked") == 0;
    assert AptitudePart(d) == [];
    var e := d[GreGmatStatus := Null];
    assert AptitudePart(e) == [];
  }

  /** `prev.map(t => t.id === id ? { ...t, completed: !t.completed } : t)` */
  function Toggled(ts: seq<Todo>, id: int): (r: seq<Todo>)
    ensures |r| == |ts|
    ensures forall i :: 0 <= i < |ts| ==> r[i].id == ts[i].id && r[i].text == ts[i].text
    ensures forall i :: 0 <= i < |ts| ==> r[i].completed == (if ts[i].id == id then !ts[i].completed else ts[i].completed)
  {
    seq(|ts|, i requires 0 <= i < |ts| => if ts[i].id == id then ts[i].(completed := !ts[i].completed) else ts[i])
  }

  /** Toggling the same id twice restores the list. */
  lemma ToggleTwiceRestores(ts: seq<Todo>, id: int)
    ensures Toggled(Toggled(ts, id), id) == ts
  {
    var r := Toggled(Toggled(ts, id), id);
    assert forall i :: 0 <= i < |ts| ==> r[i] == ts[i];
  }

  /** The first entry with the given id. */
  function FirstWithId(ts: seq<Todo>, id: int): (t: Todo)
    requires HasId(ts, id)
    ensures t in ts && t.id == id
  {
    if ts[0].id == id then ts[0]
    else
      assert HasId(ts[1..], id) by {
        var i :| 0 <= i < |ts| && ts[i].id == id;
        assert ts[1..][i - 1].id == id;
      }
      FirstWithId(ts[1..], id)
  }

  /** Without an id-1 entry the filter keeps nothing. */
  lemma {:induction false} StandingWithoutId1(ts: seq<Todo>)
    requires !HasId(ts, 1)
    ensures Standing(ts) == []
  {
    if ts != [] {
      assert !HasId(ts[1..], 1) by {
        forall k | 0 <= k < |ts[1..]|
          ensures ts[1..][k].id != 1
        {
          assert ts[1..][k] == ts[k + 1];
        }
      }
      StandingWithoutId1(ts[1..]);
    }
  }

  /**
   * In a list with unique ids that holds the standing task, the filter keeps
   * exactly that one entry, completion flag and all.
   */
  lemma {:induction false} StandingOfUnique(ts: seq<Todo>)
    requires UniqueIds(ts) && HasId(ts, 1)
    ensures Standing(ts) == [FirstWithId(ts, 1)]
  {
    if ts[0].id == 1 {
      assert !HasId(ts[1..], 1) by {
        forall k | 0 <= k < |ts[1..]|
          ensures ts[1..][k].id != 1
        {
          assert ts[1..][k] == ts[k + 1];
        }
      }
      StandingWithoutId1(ts[1..]);
    } else {
      assert HasId(ts[1..], 1) by {
        var i :| 0 <= i < |ts| && ts[i].id == 1;
        assert ts[1..][i - 1].id == 1;
      }
      StandingOfUnique(ts[1..]);
    }
  }

  /**
   * Regenerating keeps exactly one standing entry, with its completion flag
   * carried over, and the ids stay unique.
   */
  lemma RegenerateKeepsStanding(ts: seq<Todo>, d: JsObject, sels: seq<Selection>)
    requires UniqueIds(ts) && HasId(ts, 1)
    ensures var r := Standing(ts) + NewTasks(d, sels);
      && UniqueIds(r) && HasId(r, 1)
      && Standing(r) == [FirstWithId(ts, 1)]
      && FirstWithId(r, 1) == FirstWithId(ts, 1)
  {
    StandingOfUnique(ts);
    NewTasksOrdered(d, sels);
    var t := FirstWithId(ts, 1);
    var generated := NewTasks(d, sels);
    var r := [t] + generated;
    assert r[0] == t;
    assert HasId(r, 1);
    assert UniqueIds(r);
    StandingOfUnique(r);
  }

  /** In a list with unique ids, the first entry with an id is the one at its position. */
  lemma FirstWithIdAt(ts: seq<Todo>, id: int, i: nat)
    requires UniqueIds(ts) && i < |ts| && ts[i].id == id
    ensures HasId(ts, id) && FirstWithId(ts, id) == ts[i]
  {
    var t := FirstWithId(ts, id);
    var j :| 0 <= j < |ts| && ts[j] == t;
    assert j == i;
  }

  /** Toggling keeps the ids, hence one standing entry, and flips it only for id 1. */
  lemma ToggleKeepsStanding(ts: seq<Todo>, id: int)
    requires UniqueIds(ts) && HasId(ts, 1)
    ensures var r := Toggled(ts, id);
      && UniqueIds(r) && HasId(r, 1)
      && |Standing(r)| == 1
      && FirstWithId(r, 1).completed == (if id == 1 then !FirstWithId(ts, 1).completed else FirstWithId(ts, 1).completed)
  {
    var r := Toggled(ts, id);
    var i :| 0 <= i < |ts| && ts[i].id == 1;
    assert UniqueIds(r);
    FirstWithIdAt(ts, 1, i);
    FirstWithIdAt(r, 1, i);
    StandingOfUnique(r);
  }

  // ---------------------------------------------------------------------------
  // The page's state

  class DashboardPage {
    var data: Option<JsObject>
    var selections: seq<Selection>
    var loading: bool
    var todos: seq<Todo>

    /** The to-do list holds exactly one standing entry and no id twice. */
    ghost predicate Valid()
      reads this
    {
      UniqueIds(todos) && HasId(todos, 1)
    }

    constructor ()
      ensures data == None && selections == [] && loading
      ensures todos == [ResearchTask]
      ensures Valid()
    {
      data := None;
      selections := [];
      loading := true;
      todos := [ResearchTask];
      new;
      assert todos[0].id == 1;
    }

    /** Rebuilds the list: the standing entries, then freshly generated tasks. */
    method GenerateTodos(d: JsObject, sels: seq<Selection>)
      modifies this`todos
      ensures todos == Standing(old(todos)) + NewTasks(d, sels)
      ensures old(Valid()) ==> Valid() && FirstWithId(todos, 1) == old(FirstWithId(todos, 1))
    {
      var newTodos: seq<Todo> := [];
      var shortlistedCount := CountStatus(sels, "shortlisted");
      var lockedCount := CountStatus(sels, "locked");

      if Get(d, IeltsToeflStatus) == Str("not_taken") {
        newTodos := newTodos + [LanguageTask];
      }
      if Get(d, GreGmatStatus) == Str("not_taken") && Get(d, IntendedDegree) != Str("Bachelor's") {
        newTodos := newTodos + [AptitudeTask];
      }

      assert newTodos == LanguagePart(d) + AptitudePart(d);

      if Get(d, SopStatus) == Str("Not started") {
        newTodos := newTodos + [DraftSopTask];
      } else if Get(d, SopStatus) == Str("Draft") {
        newTodos := newTodos + [FinalizeSopTask];
      }
      assert newTodos == LanguagePart(d) + AptitudePart(d) + SopPart(d);

      if lockedCount > 0 {
        newTodos := newTodos + [ApplyTask];
      } else if shortlistedCount >= 3 {
        newTodos := newTodos + [LockTask];
      } else {
        newTodos := newTodos + [ShortlistTask];
      }
      assert newTodos == NewTasks(d, sels);

      if Valid() {
        RegenerateKeepsStanding(todos, d, sels);
      }
      todos := Standing(todos) + newTodos;
    }

    /** Flips the completion flag of the entries with the given id. */
    method ToggleTodo(id: int)
      modifies this`todos
      ensures todos == Toggled(old(todos), id)
      ensures old(Valid()) ==> Valid()
    {
      if Valid() {
        ToggleKeepsStanding(todos, id);
      }
      todos := Toggled(todos, id);
    }

    /**
     * The page's load effect: the profile fetch (null when the response is
     * not ok), then the selections fetch (empty when not ok); tasks are
     * regenerated only when a profile came back. A fetch that throws ends
     * the effect; loading ends either way.
     */
    method Load(onb: Fetch<Option<JsObject>>, sels: Fetch<seq<Selection>>)
      modifies this
      ensures !loading
      ensures onb.Threw? ==> data == old(data) && selections == old(selections) && todos == old(todos)
      ensures onb.Returned? ==> data == onb.value
      ensures onb.Returned? && sels.Threw? ==> selections == old(selections) && todos == old(todos)
      ensures onb.Returned? && sels.Returned? ==> selections == sels.value
      ensures onb.Returned? && sels.Returned? ==>
        todos == if onb.value.Some? then Standing(old(todos)) + NewTasks(onb.value.value, sels.value) else old(todos)
      ensures old(Valid()) ==> Valid()
    {
      if onb.Returned? {
        data := onb.value;
        if sels.Returned? {
          selections := sels.value;
          if onb.value.Some? {
            GenerateTodos(onb.value.value, sels.value);
          }
        }
      }
      loading := false;
    }
  }
}

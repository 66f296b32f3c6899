/**
 * The universities page: the catalog, the shortlisted and locked id lists and
 * the active tab, with the three click handlers that update them. The
 * handlers guard nothing themselves; the page only renders a button where
 * the click makes sense, and that rendering rule is what keeps the two lists
 * apart.
 */
module Universities {
  import opened Wire

  datatype Tab = All | ShortlistedTab | LockedTab

  predicate NoDup(s: seq<string>)
  {
    forall i, j :: 0 <= i < j < |s| ==> s[i] != s[j]
  }

  predicate Disjoint(a: seq<string>, b: seq<string>)
  {
    forall x :: x in a ==> x !in b
  }

  /** No university id occurs twice among the fetched selections. */
  predicate DistinctUniversities(sels: seq<Selection>)
  {
    forall i, j :: 0 <= i < j < |sels| ==> sels[i].universityId != sels[j].universityId
  }

  /** `selections.filter(s => s.status === status).map(s => s.university_id)` */
  function IdsWithStatus(sels: seq<Selection>, status: string): (ids: seq<string>)
    ensures |ids| <= |sels|
    ensures forall x :: x in ids <==> Selection(x, status) in sels
  {
    if sels == [] then []
    else (if sels[0].status == status then [sels[0].universityId] else []) + IdsWithStatus(sels[1..], status)
  }

  /** Selections with one record per university give a list without repeats. */
  lemma {:induction false} IdsWithStatusNoDup(sels: seq<Selection>, status: string)
    requires DistinctUniversities(sels)
    ensures NoDup(IdsWithStatus(sels, status))
  {
    if sels != [] {
      var rest := IdsWithStatus(sels[1..], status);
      assert DistinctUniversities(sels[1..]) by {
        forall i, j | 0 <= i < j < |sels[1..]|
          ensures sels[1..][i].universityId != sels[1..][j].universityId
        {
          assert sels[1..][i] == sels[i + 1] && sels[1..][j] == sels[j + 1];
        }
      }
      IdsWithStatusNoDup(sels[1..], status);
      forall k | 0 <= k < |rest|
        ensures rest[k] != sels[0].universityId
      {
        assert Selection(rest[k], status) in sels[1..];
        var m :| 0 <= m < |sels[1..]| && sels[1..][m] == Selection(rest[k], status);
        assert sels[m + 1].universityId == rest[k];
      }
      var ids := IdsWithStatus(sels, status);
      if sels[0].status == status {
        assert ids == [sels[0].universityId] + rest;
        forall i, j | 0 <= i < j < |ids|
          ensures ids[i] != ids[j]
        {
          assert ids[j] == rest[j - 1];
          if i > 0 {
            assert ids[i] == rest[i - 1];
          }
        }
      } else {
        assert ids == rest;
      }
    }
  }

  /** The partition keeps the fetch order: it distributes over concatenation. */
  lemma {:induction false} IdsWithStatusAppend(a: seq<Selection>, b: seq<Selection>, status: string)
    ensures IdsWithStatus(a + b, status) == IdsWithStatus(a, status) + IdsWithStatus(b, status)
  {
    if a != [] {
      assert (a + b)[0] == a[0];
      assert (a + b)[1..] == a[1..] + b;
      IdsWithStatusAppend(a[1..], b, status);
      var head := if a[0].status == status then [a[0].universityId] else [];
      var x, y := IdsWithStatus(a[1..], status), IdsWithStatus(b, status);
      assert IdsWithStatus(a + b, status) == head + (x + y);
      assert IdsWithStatus(a, status) == head + x;
      assert head + (x + y) == (head + x) + y;
    } else {
      assert a + b == b;
    }
  }

  /**
   * Fetched selections with one record per university split into two lists
   * without repeats and without an id in both.
   */
  lemma LoadedListsWellFormed(sels: seq<Selection>)
    requires DistinctUniversities(sels)
    ensures var s, l := IdsWithStatus(sels, "shortlisted"), IdsWithStatus(sels, "locked");
      NoDup(s) && NoDup(l) && Disjoint(s, l)
  {
    var s, l := IdsWithStatus(sels, "shortlisted"), IdsWithStatus(sels, "locked");
    IdsWithStatusNoDup(sels, "shortlisted");
    IdsWithStatusNoDup(sels, "locked");
    forall x | x in s
      ensures x !in l
    {
      var i :| 0 <= i < |sels| && sels[i] == Selection(x, "shortlisted");
      forall j | 0 <= j < |sels|
        ensures sels[j] != Selection(x, "locked")
      {
        if j < i {
          assert sels[j].universityId != sels[i].universityId;
        } else if i < j {
          assert sels[i].universityId != sels[j].universityId;
        }
      }
    }
  }

  /** `ids.filter(x => x !== id)` */
  function Without(ids: seq<string>, id: string): (r: seq<string>)
    ensures |r| <= |ids|
    ensures forall x :: x in r <==> x in ids && x != id
    ensures id !in ids ==> r == ids
    ensures NoDup(ids) ==> NoDup(r)
  {
    if ids == [] then []
    else
      assert NoDup(ids) ==> NoDup(ids[1..]) && ids[0] !in ids[1..] by {
        if NoDup(ids) {
          forall k | 0 <= k < |ids[1..]|
            ensures ids[1..][k] != ids[0]
          {
            assert ids[1..][k] == ids[k + 1];
          }
        }
      }
      (if ids[0] == id then [] else [ids[0]]) + Without(ids[1..], id)
  }

  /** `catalog.filter(u => keep.includes(u))` */
  function Kept(catalog: seq<string>, keep: seq<string>): (r: seq<string>)
    ensures |r| <= |catalog|
    ensures forall x :: x in r <==> x in catalog && x in keep
  {
    if catalog == [] then []
    else (if catalog[0] in keep then [catalog[0]] else []) + Kept(catalog[1..], keep)
  }

  /** Filtering keeps catalog order: it distributes over concatenation. */
  lemma {:induction false} KeptAppend(a: seq<string>, b: seq<string>, keep: seq<string>)
    ensures Kept(a + b, keep) == Kept(a, keep) + Kept(b, keep)
  {
    if a != [] {
      assert (a + b)[0] == a[0];
      assert (a + b)[1..] == a[1..] + b;
      KeptAppend(a[1..], b, keep);
      var head := if a[0] in keep then [a[0]] else [];
      var x, y := Kept(a[1..], keep), Kept(b, keep);
      assert Kept(a + b, keep) == head + (x + y);
      assert Kept(a, keep) == head + x;
      assert head + (x + y) == (head + x) + y;
    } else {
      assert a + b == b;
    }
  }

  /** Everything the page's handlers read and write. */
  datatype Page = Page(tab: Tab, catalog: seq<string>, shortlisted: seq<string>, locked: seq<string>)

  /** The two lists hold no id twice and share no id. */
  predicate WellFormed(p: Page)
  {
    NoDup(p.shortlisted) && NoDup(p.locked) && Disjoint(p.shortlisted, p.locked)
  }

  /**
   * The cards shown: the whole catalog on the "all" tab, otherwise the
   * catalog entries in the tab's list, in catalog order.
   */
  function DisplayUniversities(p: Page): (r: seq<string>)
    ensures p.tab == All ==> r == p.catalog
    ensures forall x :: x in r <==>
      x in p.catalog
      && (p.tab == ShortlistedTab ==> x in p.shortlisted)
      && (p.tab == LockedTab ==> x in p.locked)
  {
    match p.tab
    case ShortlistedTab => Kept(p.catalog, p.shortlisted)
    case LockedTab => Kept(p.catalog, p.locked)
    case All => p.catalog
  }

  /** `handleShortlist` once its request returned: remove when listed, else append. */
  function ShortlistStep(p: Page, id: string): Page
  {
    if id in p.shortlisted then p.(shortlisted := Without(p.shortlisted, id))
    else p.(shortlisted := p.shortlisted + [id])
  }

  /** `handleLock` once its request returned. */
  function LockStep(p: Page, id: string): Page
  {
    p.(locked := p.locked + [id], shortlisted := Without(p.shortlisted, id), tab := LockedTab)
  }

  /** `handleUnlock` once confirmed and its request returned. */
  function UnlockStep(p: Page, id: string): Page
  {
    p.(locked := Without(p.locked, id), shortlisted := p.shortlisted + [id])
  }

  /**
   * A click on the page. `returned` is false when the awaited fetch threw;
   * `confirmed` is the answer to the unlock confirmation dialog.
   */
  datatype Action =
    | TabClick(target: Tab)
    | ShortlistClick(id: string, returned: bool)
    | LockClick(id: string, returned: bool)
    | UnlockClick(id: string, confirmed: bool, returned: bool)

  function Apply(p: Page, a: Action): Page
  {
    match a
    case TabClick(t) => p.(tab := t)
    case ShortlistClick(id, returned) => if returned then ShortlistStep(p, id) else p
    case LockClick(id, returned) => if returned then LockStep(p, id) else p
    case UnlockClick(id, confirmed, returned) => if confirmed && returned then UnlockStep(p, id) else p
  }

  /**
   * The buttons the page renders: the tab buttons always; on the shortlisted
   * tab "Remove" and "Lock Application" for each displayed card; on the
   * locked tab "Unlock" for each displayed card; on the "all" tab the
   * shortlist toggle, disabled for a locked id.
   */
  predicate Enabled(p: Page, a: Action)
  {
    match a
    case TabClick(_) => true
    case ShortlistClick(id, _) =>
      id in DisplayUniversities(p) && (p.tab == ShortlistedTab || (p.tab == All && id !in p.locked))
    case LockClick(id, _) => id in DisplayUniversities(p) && p.tab == ShortlistedTab
    case UnlockClick(id, _, _) => id in DisplayUniversities(p) && p.tab == LockedTab
  }

  /** Any click the page renders keeps the lists apart and free of repeats. */
  lemma EnabledActionKeepsWellFormed(p: Page, a: Action)
    requires WellFormed(p) && Enabled(p, a)
    ensures WellFormed(Apply(p, a))
  {
    var q := Apply(p, a);
    match a
    case TabClick(_) =>
    case ShortlistClick(id, returned) =>
      if returned && id !in p.shortlisted {
        assert id !in p.locked;
        assert NoDup(q.shortlisted) by {
          forall i, j | 0 <= i < j < |q.shortlisted|
            ensures q.shortlisted[i] != q.shortlisted[j]
          {
            if j == |p.shortlisted| {
              assert q.shortlisted[i] in p.shortlisted;
            }
          }
        }
      }
    case LockClick(id, returned) =>
      if returned {
        assert id in p.shortlisted;
        assert NoDup(q.locked) by {
          forall i, j | 0 <= i < j < |q.locked|
            ensures q.locked[i] != q.locked[j]
          {
            if j == |p.locked| {
              assert q.locked[i] in p.locked;
            }
          }
        }
      }
    case UnlockClick(id, confirmed, returned) =>
      if confirmed && returned {
        assert id in p.locked;
        assert NoDup(q.shortlisted) by {
          forall i, j | 0 <= i < j < |q.shortlisted|
            ensures q.shortlisted[i] != q.shortlisted[j]
          {
            if j == |p.shortlisted| {
              assert q.shortlisted[i] in p.shortlisted;
            }
          }
        }
      }
  }

  function Run(p: Page, actions: seq<Action>): Page
    decreases |actions|
  {
    if actions == [] then p else Run(Apply(p, actions[0]), actions[1..])
  }

  /** Every click of the run is one the page renders at that point. */
  predicate EnabledRun(p: Page, actions: seq<Action>)
    decreases |actions|
  {
    actions == [] || (Enabled(p, actions[0]) && EnabledRun(Apply(p, actions[0]), actions[1..]))
  }

  /**
   * Starting from well-formed lists, any sequence of rendered clicks keeps
   * them well formed. Disjointness rests on the "all" tab's toggle being
   * disabled for a locked id and on "Lock Application" being shown only on
   * the shortlisted tab; the absence of repeats rests on the lock and
   * unlock buttons appearing only for ids in the list they leave, which by
   * disjointness are not yet in the list they join; the shortlist toggle
   * appends only an id it did not find.
   */
  lemma {:induction false} EnabledRunKeepsWellFormed(p: Page, actions: seq<Action>)
    requires WellFormed(p) && EnabledRun(p, actions)
    ensures WellFormed(Run(p, actions))
    decreases |actions|
  {
    if actions != [] {
      EnabledActionKeepsWellFormed(p, actions[0]);
      EnabledRunKeepsWellFormed(Apply(p, actions[0]), actions[1..]);
    }
  }

  /**
   * Shortlist, switch to the shortlisted tab, lock, unlock: the university
   * ends up shortlisted, and the lists never share it on the way.
   */
  lemma AddLockUnlockScenario()
    ensures var p0 := Page(All, ["uk-1"], [], []);
      var actions := [ShortlistClick("uk-1", true), TabClick(ShortlistedTab), LockClick("uk-1", true), UnlockClick("uk-1", true, true)];
      && EnabledRun(p0, actions)
      && (forall k :: 0 <= k <= |actions| ==> WellFormed(Run(p0, actions[..k])))
      && Run(p0, actions) == Page(LockedTab, ["uk-1"], ["uk-1"], [])
  {
    var p0 := Page(All, ["uk-1"], [], []);
    var a := [ShortlistClick("uk-1", true), TabClick(ShortlistedTab), LockClick("uk-1", true), UnlockClick("uk-1", true, true)];
    var p1 := Page(All, ["uk-1"], ["uk-1"], []);
    var p2 := Page(ShortlistedTab, ["uk-1"], ["uk-1"], []);
    var p3 := Page(LockedTab, ["uk-1"], [], ["uk-1"]);
    var p4 := Page(LockedTab, ["uk-1"], ["uk-1"], []);
    assert Apply(p0, a[0]) == p1;
    assert Apply(p1, a[1]) == p2;
    assert Without(["uk-1"], "uk-1") == [];
    assert Apply(p2, a[2]) == p3;
    assert Apply(p3, a[3]) == p4;
    assert a[1..][1..][1..][1..] == [];
    assert EnabledRun(p3, a[3..]);
    assert EnabledRun(p2, a[2..]);
    assert EnabledRun(p1, a[1..]);
    assert EnabledRun(p0, a);
    forall k | 0 <= k <= |a|
      ensures WellFormed(Run(p0, a[..k]))
    {
      EnabledRunPrefix(p0, a, k);
      EnabledRunKeepsWellFormed(p0, a[..k]);
    }
    assert Run(p0, a) == p4;
  }

  /** A prefix of a rendered run is a rendered run. */
  lemma {:induction false} EnabledRunPrefix(p: Page, actions: seq<Action>, k: nat)
    requires k <= |actions| && EnabledRun(p, actions)
    ensures EnabledRun(p, actions[..k])
    decreases k
  {
    if k > 0 {
      assert actions[..k][1..] == actions[1..][..k - 1];
      EnabledRunPrefix(Apply(p, actions[0]), actions[1..], k - 1);
    }
  }

  /**
   * The add branch does not consult the locked list: shortlisting a locked
   * id, which the page never renders, puts it in both lists.
   */
  lemma UnguardedShortlistOverlaps()
    ensures var q := Apply(Page(All, ["uk-1"], [], ["uk-1"]), ShortlistClick("uk-1", true));
      "uk-1" in q.shortlisted && "uk-1" in q.locked && !WellFormed(q)
  {
  }

  /** `handleLock` does not de-duplicate: locking a locked id lists it twice. */
  lemma UnguardedLockRepeats()
    ensures Apply(Page(LockedTab, ["uk-1"], [], ["uk-1"]), LockClick("uk-1", true)).locked == ["uk-1", "uk-1"]
  {
  }

  class UniversitiesPage {
    var activeTab: Tab
    var allUniversities: seq<string>
    var shortlistedIds: seq<string>
    var lockedIds: seq<string>
    var loading: bool

    function Snapshot(): Page
      reads this
    {
      Page(activeTab, allUniversities, shortlistedIds, lockedIds)
    }

    constructor ()
      ensures Snapshot() == Page(All, [], [], []) && loading
      ensures WellFormed(Snapshot())
    {
      activeTab := All;
      allUniversities := [];
      shortlistedIds := [];
      lockedIds := [];
      loading := true;
    }

    /**
     * The initial fetch: the selections are split by status, in fetch order,
     * and the catalog is shown; when a fetch throws only the catalog is set.
     */
    method Load(sels: Fetch<seq<Selection>>, catalog: seq<string>)
      modifies this
      ensures !loading && allUniversities == catalog && activeTab == old(activeTab)
      ensures sels.Returned? ==>
        shortlistedIds == IdsWithStatus(sels.value, "shortlisted") && lockedIds == IdsWithStatus(sels.value, "locked")
      ensures sels.Threw? ==> shortlistedIds == old(shortlistedIds) && lockedIds == old(lockedIds)
      ensures sels.Returned? && DistinctUniversities(sels.value) ==> WellFormed(Snapshot())
    {
      if sels.Returned? {
        var sIds := IdsWithStatus(sels.value, "shortlisted");
        var lIds := IdsWithStatus(sels.value, "locked");
        shortlistedIds := sIds;
        lockedIds := lIds;
        if DistinctUniversities(sels.value) {
          LoadedListsWellFormed(sels.value);
        }
      }
      allUniversities := catalog;
      loading := false;
    }

    method SetActiveTab(t: Tab)
      modifies this`activeTab
      ensures Snapshot() == Apply(old(Snapshot()), TabClick(t))
    {
      activeTab := t;
    }

    /** Removes a shortlisted id (every occurrence), otherwise appends it. */
    method HandleShortlist(id: string, returned: bool)
      modifies this`shortlistedIds
      ensures Snapshot() == Apply(old(Snapshot()), ShortlistClick(id, returned))
      ensures old(WellFormed(Snapshot()) && Enabled(Snapshot(), ShortlistClick(id, returned))) ==> WellFormed(Snapshot())
    {
      ghost var before := Snapshot();
      if id in shortlistedIds {
        if returned {
          shortlistedIds := Without(shortlistedIds, id);
        }
      } else {
        if returned {
          shortlistedIds := shortlistedIds + [id];
        }
      }
      if WellFormed(before) && Enabled(before, ShortlistClick(id, returned)) {
        EnabledActionKeepsWellFormed(before, ShortlistClick(id, returned));
      }
    }

    /** Appends the id to the locked list, drops it from the shortlist and shows the locked tab. */
    method HandleLock(id: string, returned: bool)
      modifies this`lockedIds, this`shortlistedIds, this`activeTab
      ensures Snapshot() == Apply(old(Snapshot()), LockClick(id, returned))
      ensures old(WellFormed(Snapshot()) && Enabled(Snapshot(), LockClick(id, returned))) ==> WellFormed(Snapshot())
    {
      ghost var before := Snapshot();
      if returned {
        lockedIds := lockedIds + [id];
        shortlistedIds := Without(shortlistedIds, id);
        activeTab := LockedTab;
      }
      if WellFormed(before) && Enabled(before, LockClick(id, returned)) {
        EnabledActionKeepsWellFormed(before, LockClick(id, returned));
      }
    }

    /** When confirmed, drops the id from the locked list and appends it to the shortlist. */
    method HandleUnlock(id: string, confirmed: bool, returned: bool)
      modifies this`lockedIds, this`shortlistedIds
      ensures Snapshot() == Apply(old(Snapshot()), UnlockClick(id, confirmed, returned))
      ensures old(WellFormed(Snapshot()) && Enabled(Snapshot(), UnlockClick(id, confirmed, returned))) ==> WellFormed(Snapshot())
    {
      ghost var before := Snapshot();
      if confirmed {
        if returned {
          lockedIds := Without(lockedIds, id);
          shortlistedIds := shortlistedIds + [id];
        }
      }
      if WellFormed(before) && Enabled(before, UnlockClick(id, confirmed, returned)) {
        EnabledActionKeepsWellFormed(before, UnlockClick(id, confirmed, returned));
      }
    }
  }
}

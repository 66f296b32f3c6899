/**
 * The backend's table of university selections, `user_universities`: rows of
 * (user_id, university_id, status) with no uniqueness constraint, read by a
 * first-match lookup and written by a lookup-then-update-or-insert upsert and
 * a lookup-then-delete removal.
 */
module CrudUniversity {
  import opened Wire

  /** The status column is a closed enum on the server. */
  datatype UniversityStatus = Shortlisted | Locked
  {
    /** The value the API sends for the status. */
    function Name(): (name: string)
      ensures name == "shortlisted" <==> this == Shortlisted
      ensures name == "locked" <==> this == Locked
    {
      match this
      case Shortlisted => "shortlisted"
      case Locked => "locked"
    }
  }

  datatype UserUniversity = UserUniversity(userId: int, universityId: string, status: UniversityStatus)

  type Pair = (int, string)

  function Key(r: UserUniversity): Pair
  {
    (r.userId, r.universityId)
  }

  /** The row is the user's selection of that university. */
  predicate Matches(r: UserUniversity, u: int, x: string)
  {
    r.userId == u && r.universityId == x
  }

  /** At most one row per (user, university) pair. */
  predicate UniquePairs(rows: seq<UserUniversity>)
  {
    forall i, j :: 0 <= i < j < |rows| ==> Key(rows[i]) != Key(rows[j])
  }

  /** `get_user_university`: the index of the first row of the pair, if any. */
  function FindFirst(rows: seq<UserUniversity>, u: int, x: string): (k: Option<nat>)
    ensures k.Some? ==> k.value < |rows| && Matches(rows[k.value], u, x)
    ensures k.Some? ==> forall j :: 0 <= j < k.value ==> !Matches(rows[j], u, x)
    ensures k.None? <==> forall j :: 0 <= j < |rows| ==> !Matches(rows[j], u, x)
  {
    if rows == [] then None
    else if Matches(rows[0], u, x) then Some(0)
    else
      match FindFirst(rows[1..], u, x)
      case None =>
        assert forall j :: 1 <= j < |rows| ==> rows[j] == rows[1..][j - 1];
        None
      case Some(k) => Some(k + 1)
  }

  /** Two tables whose rows match the pair at the same positions give the same lookup. */
  lemma FindFirstAgrees(rows: seq<UserUniversity>, rows': seq<UserUniversity>, u: int, x: string)
    requires |rows| <= |rows'|
    requires forall j :: 0 <= j < |rows| ==> (Matches(rows[j], u, x) <==> Matches(rows'[j], u, x))
    requires forall j :: |rows| <= j < |rows'| ==> !Matches(rows'[j], u, x)
    ensures FindFirst(rows', u, x) == FindFirst(rows, u, x)
  {
  }

  /**
   * The table as a map from (user, university) to status: a pair is present
   * iff some row has it, and maps to the status of its first row, which is
   * the row every lookup returns.
   */
  function Abs(rows: seq<UserUniversity>): map<Pair, UniversityStatus>
  {
    if rows == [] then map[] else Abs(rows[1..])[Key(rows[0]) := rows[0].status]
  }

  /** A pair is in the map iff a lookup finds a row, and maps to that row's status. */
  lemma {:induction false} AbsLookup(rows: seq<UserUniversity>, p: Pair)
    ensures p in Abs(rows) <==> FindFirst(rows, p.0, p.1).Some?
    ensures p in Abs(rows) ==> Abs(rows)[p] == rows[FindFirst(rows, p.0, p.1).value].status
  {
    if rows != [] {
      AbsLookup(rows[1..], p);
    }
  }

  /** Under uniqueness every row's status is the status of its pair. */
  lemma AbsOfUnique(rows: seq<UserUniversity>, i: nat)
    requires UniquePairs(rows) && i < |rows|
    ensures Key(rows[i]) in Abs(rows) && Abs(rows)[Key(rows[i])] == rows[i].status
  {
    AbsLookup(rows, Key(rows[i]));
  }

  /** `get_user_universities`: all and only the user's rows, in table order. */
  function UserRows(rows: seq<UserUniversity>, u: int): (r: seq<UserUniversity>)
    ensures |r| <= |rows|
    ensures forall row :: row in r <==> row in rows && row.userId == u
  {
    if rows == [] then []
    else (if rows[0].userId == u then [rows[0]] else []) + UserRows(rows[1..], u)
  }

  /**
   * `update_university_status`: overwrite the status of the pair's first row,
   * or append a new row when the pair has none.
   */
  function Upserted(rows: seq<UserUniversity>, u: int, x: string, s: UniversityStatus): seq<UserUniversity>
  {
    match FindFirst(rows, u, x)
    case Some(k) => rows[k := rows[k].(status := s)]
    case None => rows + [UserUniversity(u, x, s)]
  }

  /** After the upsert the pair is present with the new status. */
  lemma UpsertedSetsPair(rows: seq<UserUniversity>, u: int, x: string, s: UniversityStatus)
    ensures (u, x) in Abs(Upserted(rows, u, x, s)) && Abs(Upserted(rows, u, x, s))[(u, x)] == s
  {
    var rows' := Upserted(rows, u, x, s);
    AbsLookup(rows', (u, x));
    match FindFirst(rows, u, x)
    case Some(k) =>
      FindFirstAgrees(rows, rows', u, x);
    case None =>
      assert Matches(rows'[|rows|], u, x);
      FindFirstAgrees(rows, rows'[..|rows|], u, x);
      assert FindFirst(rows', u, x) == Some(|rows|);
  }

  /** The upsert leaves every other pair as it was. */
  lemma UpsertedKeepsOther(rows: seq<UserUniversity>, u: int, x: string, s: UniversityStatus, p: Pair)
    requires p != (u, x)
    ensures p in Abs(Upserted(rows, u, x, s)) <==> p in Abs(rows)
    ensures p in Abs(rows) ==> Abs(Upserted(rows, u, x, s))[p] == Abs(rows)[p]
  {
    var rows' := Upserted(rows, u, x, s);
    AbsLookup(rows, p);
    AbsLookup(rows', p);
    FindFirstAgrees(rows, rows', p.0, p.1);
    match FindFirst(rows, u, x)
    case Some(k) =>
    case None =>
  }

  /** After the upsert the pair maps to the new status and every other pair is as it was. */
  lemma UpsertedAbs(rows: seq<UserUniversity>, u: int, x: string, s: UniversityStatus)
    ensures Abs(Upserted(rows, u, x, s)) == Abs(rows)[(u, x) := s]
  {
    var m, m' := Abs(rows)[(u, x) := s], Abs(Upserted(rows, u, x, s));
    UpsertedSetsPair(rows, u, x, s);
    forall p | p != (u, x)
      ensures p in m' <==> p in m
      ensures p in m' ==> m'[p] == m[p]
    {
      UpsertedKeepsOther(rows, u, x, s, p);
    }
  }

  /** The upsert never adds a second row for a pair. */
  lemma UpsertedKeepsUnique(rows: seq<UserUniversity>, u: int, x: string, s: UniversityStatus)
    requires UniquePairs(rows)
    ensures UniquePairs(Upserted(rows, u, x, s))
  {
    var rows' := Upserted(rows, u, x, s);
    match FindFirst(rows, u, x)
    case Some(k) =>
      assert forall j :: 0 <= j < |rows| ==> Key(rows'[j]) == Key(rows[j]);
    case None =>
      forall i, j | 0 <= i < j < |rows'|
        ensures Key(rows'[i]) != Key(rows'[j])
      {
        if j == |rows| {
          assert !Matches(rows[i], u, x);
        }
      }
  }

  /** `remove_university`: delete the pair's first row, if any. */
  function Deleted(rows: seq<UserUniversity>, u: int, x: string): seq<UserUniversity>
  {
    match FindFirst(rows, u, x)
    case Some(k) => rows[..k] + rows[k + 1..]
    case None => rows
  }

  /** Deleting a row keeps the other rows distinct. */
  lemma DeletedKeepsUnique(rows: seq<UserUniversity>, u: int, x: string)
    requires UniquePairs(rows)
    ensures UniquePairs(Deleted(rows, u, x))
  {
    match FindFirst(rows, u, x)
    case None =>
    case Some(k) =>
      var rows' := Deleted(rows, u, x);
      forall i, j | 0 <= i < j < |rows'|
        ensures Key(rows'[i]) != Key(rows'[j])
      {
        var i0 := if i < k then i else i + 1;
        var j0 := if j < k then j else j + 1;
        assert rows'[i] == rows[i0] && rows'[j] == rows[j0];
      }
  }

  /** The row at `j` of the table with row `k` removed. */
  lemma RemovedAt(rows: seq<UserUniversity>, k: nat, j: nat)
    requires k < |rows| && j < |rows| - 1
    ensures (rows[..k] + rows[k + 1..])[j] == rows[if j < k then j else j + 1]
  {
  }

  /** A pair other than the removed one keeps its rows. */
  lemma DeletedKeepsOther(rows: seq<UserUniversity>, u: int, x: string, k: nat, p: Pair)
    requires UniquePairs(rows) && FindFirst(rows, u, x) == Some(k)
    requires p in Abs(rows) && p != (u, x)
    ensures p in Abs(rows[..k] + rows[k + 1..])
    ensures Abs(rows[..k] + rows[k + 1..])[p] == Abs(rows)[p]
  {
    var rows' := rows[..k] + rows[k + 1..];
    DeletedKeepsUnique(rows, u, x);
    AbsLookup(rows, p);
    var i := FindFirst(rows, p.0, p.1).value;
    assert Key(rows[i]) == p && Key(rows[k]) == (u, x);
    assert i != k;
    var i' := if i < k then i else i - 1;
    RemovedAt(rows, k, i');
    assert rows'[i'] == rows[i];
    AbsOfUnique(rows, i);
    AbsOfUnique(rows', i');
  }

  /** Every pair left after the removal was there before and is not the removed one. */
  lemma DeletedAddsNothing(rows: seq<UserUniversity>, u: int, x: string, k: nat, p: Pair)
    requires UniquePairs(rows) && FindFirst(rows, u, x) == Some(k)
    requires p in Abs(rows[..k] + rows[k + 1..])
    ensures p in Abs(rows) && p != (u, x)
  {
    var rows' := rows[..k] + rows[k + 1..];
    AbsLookup(rows', p);
    var j := FindFirst(rows', p.0, p.1).value;
    var j0 := if j < k then j else j + 1;
    RemovedAt(rows, k, j);
    assert Key(rows[j0]) == p && j0 != k;
    AbsOfUnique(rows, j0);
  }

  /** With one row per pair, removal takes the pair out of the table and leaves every other pair. */
  lemma DeletedAbs(rows: seq<UserUniversity>, u: int, x: string)
    requires UniquePairs(rows)
    ensures Abs(Deleted(rows, u, x)) == Abs(rows) - {(u, x)}
  {
    match FindFirst(rows, u, x)
    case None =>
      AbsLookup(rows, (u, x));
      assert Abs(rows) - {(u, x)} == Abs(rows);
    case Some(k) =>
      var m, m' := Abs(rows), Abs(Deleted(rows, u, x));
      forall p
        ensures p in m' <==> p in m - {(u, x)}
        ensures p in m' ==> m'[p] == m[p]
      {
        if p in m' {
          DeletedAddsNothing(rows, u, x, k, p);
        }
        if p in m && p != (u, x) {
          DeletedKeepsOther(rows, u, x, k, p);
        }
      }
  }

  /**
   * Without the uniqueness the upsert maintains, a removal leaves a second
   * row of the pair behind and the pair still looks selected.
   */
  lemma DuplicateSurvivesRemoval()
    ensures var rows := [UserUniversity(7, "usa-1", Shortlisted), UserUniversity(7, "usa-1", Locked)];
      && !UniquePairs(rows)
      && Deleted(rows, 7, "usa-1") == [UserUniversity(7, "usa-1", Locked)]
      && (7, "usa-1") in Abs(Deleted(rows, 7, "usa-1"))
  {
    var rows := [UserUniversity(7, "usa-1", Shortlisted), UserUniversity(7, "usa-1", Locked)];
    assert FindFirst(rows, 7, "usa-1") == Some(0);
    assert FindFirst(Deleted(rows, 7, "usa-1"), 7, "usa-1") == Some(0);
  }

  /** The reply of `DELETE /universities/{id}`. */
  datatype DeleteReply = Removed(message: string) | NotFound(code: int, detail: string)

  /** A failed removal becomes a 404; a successful one a confirmation message. */
  function DeleteResponse(success: bool): (reply: DeleteReply)
    ensures reply.Removed? <==> success
    ensures reply.NotFound? ==> reply.code == 404
  {
    if success then Removed("Selection removed")
    else NotFound(404, "University not found in selection")
  }

  class SelectionTable {
    var rows: seq<UserUniversity>

    constructor ()
      ensures rows == [] && UniquePairs(rows)
    {
      rows := [];
    }

    /** The user's selection of the university, or none. */
    method GetUserUniversity(u: int, x: string) returns (r: Option<UserUniversity>)
      ensures r.Some? <==> (u, x) in Abs(rows)
      ensures r.Some? ==> Matches(r.value, u, x) && r.value.status == Abs(rows)[(u, x)]
      ensures r.Some? ==> FindFirst(rows, u, x).Some? && r.value == rows[FindFirst(rows, u, x).value]
    {
      AbsLookup(rows, (u, x));
      var k := FindFirst(rows, u, x);
      if k.Some? {
        r := Some(rows[k.value]);
      } else {
        r := None;
      }
    }

    /**
     * Sets the status of the user's selection of the university: in place
     * when a row exists, by inserting one row otherwise. Any status may
     * overwrite any other.
     */
    method UpdateUniversityStatus(u: int, x: string, s: UniversityStatus) returns (r: UserUniversity)
      modifies this
      ensures rows == Upserted(old(rows), u, x, s)
      ensures r == UserUniversity(u, x, s)
      ensures old(FindFirst(rows, u, x)).Some? ==> |rows| == old(|rows|)
      ensures old(FindFirst(rows, u, x)).None? ==> |rows| == old(|rows|) + 1
      ensures Abs(rows) == old(Abs(rows))[(u, x) := s]
      ensures old(UniquePairs(rows)) ==> UniquePairs(rows)
    {
      UpsertedAbs(rows, u, x, s);
      if UniquePairs(rows) {
        UpsertedKeepsUnique(rows, u, x, s);
      }
      var existing := FindFirst(rows, u, x);
      if existing.Some? {
        var k := existing.value;
        rows := rows[k := rows[k].(status := s)];
        r := rows[k];
      } else {
        r := UserUniversity(u, x, s);
        rows := rows + [r];
      }
    }

    /** Deletes the user's selection of the university; reports whether there was one. */
    method RemoveUniversity(u: int, x: string) returns (removed: bool)
      modifies this
      ensures removed <==> old((u, x) in Abs(rows))
      ensures rows == Deleted(old(rows), u, x)
      ensures !removed ==> rows == old(rows)
      ensures removed ==> |rows| == old(|rows|) - 1
      ensures old(UniquePairs(rows)) ==> UniquePairs(rows) && Abs(rows) == old(Abs(rows)) - {(u, x)}
    {
      AbsLookup(rows, (u, x));
      if UniquePairs(rows) {
        DeletedKeepsUnique(rows, u, x);
        DeletedAbs(rows, u, x);
      }
      var existing := FindFirst(rows, u, x);
      if existing.Some? {
        var k := existing.value;
        rows := rows[..k] + rows[k + 1..];
        removed := true;
      } else {
        removed := false;
      }
    }

    /** `DELETE /universities/{id}` for the current user. */
    method RemoveSelection(u: int, x: string) returns (reply: DeleteReply)
      modifies this
      ensures rows == Deleted(old(rows), u, x)
      ensures reply.NotFound? <==> old((u, x) !in Abs(rows))
      ensures reply.NotFound? ==> reply.code == 404
    {
      var success := RemoveUniversity(u, x);
      reply := DeleteResponse(success);
    }
  }
}

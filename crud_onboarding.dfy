/**
 * The backend's onboarding table, `user_onboarding`: one record per user
 * holding the fifteen profile columns, all nullable. A request body is the
 * parsed JSON object; its keys are the fields the client explicitly set.
 */
module CrudOnboarding {
  import opened Wire

  datatype OnboardingRecord = OnboardingRecord(userId: int, fields: JsObject)

  /** A stored record: every column has a value, which may be null. */
  predicate Complete(fields: JsObject)
  {
    HasAllFields(fields) && IsJson(fields)
  }

  /**
   * `model_dump(exclude_unset=False)`: every schema field, the unset ones
   * as None. This is what `create` stores.
   */
  function Created(data: JsObject): (r: JsObject)
    ensures HasAllFields(r)
    ensures forall k :: k in data ==> r[k] == data[k]
    ensures forall k :: k !in data ==> r[k] == Null
    ensures IsJson(data) ==> Complete(r)
  {
    SchemaHasEveryField();
    map k | k in AllFields :: if k in data then data[k] else Null
  }

  /**
   * `update` on a stored record: the fields set in the body are assigned,
   * None included; every other field keeps its value.
   */
  function Merged(stored: JsObject, data: JsObject): (r: JsObject)
    ensures r.Keys == stored.Keys + data.Keys
    ensures forall k :: k in data ==> r[k] == data[k]
    ensures forall k :: k in stored && k !in data ==> r[k] == stored[k]
    ensures Complete(stored) && IsJson(data) ==> Complete(r)
  {
    SchemaHasEveryField();
    stored + data
  }

  /**
   * The `setattr` loop of `update`: each field the body sets is assigned
   * in turn, in whatever order the body's keys come.
   */
  method SetAttrs(start: JsObject, data: JsObject) returns (fields: JsObject)
    ensures fields == Merged(start, data)
  {
    fields := start;
    var todo := data.Keys;
    while todo != {}
      invariant todo <= data.Keys
      invariant fields == start + (map f | f in data && f !in todo :: data[f])
      decreases |todo|
    {
      var f :| f in todo;
      fields := fields[f := data[f]];
      todo := todo - {f};
    }
    assert (map f | f in data && f !in todo :: data[f]) == data;
  }

  /** A record whose every column is null. */
  const NullRecord: JsObject := map k | k in AllFields :: Null

  /** Creating a record is updating an all-null record with the same body. */
  lemma CreatedIsMergedIntoNulls(data: JsObject)
    ensures Created(data) == Merged(NullRecord, data)
  {
    SchemaHasEveryField();
  }

  /** Dumping an already complete body again changes nothing. */
  lemma CreatedIdempotent(data: JsObject)
    ensures Created(Created(data)) == Created(data)
  {
  }

  /** Sending the same body twice stores the same record as sending it once. */
  lemma MergedIdempotent(stored: JsObject, data: JsObject)
    ensures Merged(Merged(stored, data), data) == Merged(stored, data)
  {
  }

  /**
   * A body that sets every field makes both branches of the upsert store
   * the same record: whatever was stored before is overwritten.
   */
  lemma FullBodyOverwrites(stored: JsObject, data: JsObject)
    requires HasAllFields(data)
    ensures Merged(stored, data) == data
    ensures Created(data) == data
  {
  }

  /** `user_id` is unique in the table. */
  predicate UniqueUsers(records: seq<OnboardingRecord>)
  {
    forall i, j :: 0 <= i < j < |records| ==> records[i].userId != records[j].userId
  }

  /** Every record has every column. */
  predicate AllComplete(records: seq<OnboardingRecord>)
  {
    forall i :: 0 <= i < |records| ==> Complete(records[i].fields)
  }

  /** `get_by_user_id`: the index of the user's first record, if any. */
  function FindUser(records: seq<OnboardingRecord>, u: int): (k: Option<nat>)
    ensures k.Some? ==> k.value < |records| && records[k.value].userId == u
    ensures k.Some? ==> forall j :: 0 <= j < k.value ==> records[j].userId != u
    ensures k.None? <==> forall j :: 0 <= j < |records| ==> records[j].userId != u
  {
    if records == [] then None
    else if records[0].userId == u then Some(0)
    else
      match FindUser(records[1..], u)
      case None =>
        assert forall j :: 1 <= j < |records| ==> records[j] == records[1..][j - 1];
        None
      case Some(k) => Some(k + 1)
  }

  /** Under the unique constraint, a user's record is the only one with that user. */
  lemma FindUserUnique(records: seq<OnboardingRecord>, i: nat)
    requires UniqueUsers(records) && i < |records|
    ensures FindUser(records, records[i].userId) == Some(i)
  {
  }

  /** Replacing a record by a complete one of the same user keeps the table valid. */
  lemma ReplaceKeepsValid(records: seq<OnboardingRecord>, k: nat, r: OnboardingRecord)
    requires UniqueUsers(records) && AllComplete(records) && k < |records|
    requires r.userId == records[k].userId && Complete(r.fields)
    ensures UniqueUsers(records[k := r]) && AllComplete(records[k := r])
  {
  }

  /** The fields `upsert` leaves in the user's record. */
  function UpsertedFields(records: seq<OnboardingRecord>, u: int, data: JsObject): JsObject
  {
    match FindUser(records, u)
    case Some(k) => Merged(records[k].fields, data)
    case None => Created(data)
  }

  class OnboardingStore {
    /** The `user_onboarding` table. */
    var records: seq<OnboardingRecord>
    /** The users whose `is_onboarded` flag is set. */
    var onboarded: set<int>

    ghost predicate Valid()
      reads this
    {
      UniqueUsers(records) && AllComplete(records)
    }

    constructor ()
      ensures records == [] && onboarded == {}
      ensures Valid()
    {
      records := [];
      onboarded := {};
    }

    /** `get_by_user_id` */
    method GetByUserId(u: int) returns (r: Option<OnboardingRecord>)
      ensures r.None? <==> forall j :: 0 <= j < |records| ==> records[j].userId != u
      ensures r.Some? ==> r.value.userId == u && r.value in records
      ensures r.Some? && Valid() ==> Complete(r.value.fields)
    {
      var k := FindUser(records, u);
      if k.Some? {
        r := Some(records[k.value]);
      } else {
        r := None;
      }
    }

    /** `create`: inserts a record holding every field of the body, unset ones null. */
    method Create(u: int, data: JsObject) returns (r: OnboardingRecord)
      requires IsJson(data)
      modifies this`records
      ensures r == OnboardingRecord(u, Created(data))
      ensures records == old(records) + [r]
      ensures old(AllComplete(records)) ==> AllComplete(records)
    {
      r := OnboardingRecord(u, Created(data));
      records := records + [r];
    }

    /** `update`: assigns, one by one, the fields the body sets on the record at `k`. */
    method Update(k: nat, data: JsObject) returns (r: OnboardingRecord)
      requires k < |records| && IsJson(data)
      modifies this`records
      ensures r == OnboardingRecord(old(records[k].userId), Merged(old(records[k].fields), data))
      ensures records == old(records)[k := r]
      ensures old(Valid()) ==> Valid()
    {
      var fields := SetAttrs(records[k].fields, data);
      r := OnboardingRecord(records[k].userId, fields);
      if UniqueUsers(records) && AllComplete(records) {
        ReplaceKeepsValid(records, k, r);
      }
      records := records[k := r];
    }

    /**
     * `upsert`: updates the user's record when there is one and creates it
     * otherwise. Either way the user then has exactly one record, holding
     * the body's fields.
     */
    method Upsert(u: int, data: JsObject) returns (r: OnboardingRecord)
      requires IsJson(data)
      modifies this`records
      ensures r == OnboardingRecord(u, UpsertedFields(old(records), u, data))
      ensures old(FindUser(records, u)).Some? ==>
        r.fields == Merged(old(records[FindUser(records, u).value].fields), data)
        && records == old(records)[old(FindUser(records, u).value) := r]
      ensures old(FindUser(records, u)).None? ==>
        r.fields == Created(data) && records == old(records) + [r]
      ensures old(Valid()) ==> Valid() && FindUser(records, u).Some? && records[FindUser(records, u).value] == r
    {
      var existing := FindUser(records, u);
      if existing.Some? {
        r := Update(existing.value, data);
        if old(Valid()) {
          FindUserUnique(records, existing.value);
        }
      } else {
        CreatedIdempotent(data);
        r := Create(u, Created(data));
        if old(Valid()) {
          assert UniqueUsers(records);
          FindUserUnique(records, |records| - 1);
        }
      }
    }

    /** `PUT /onboarding`: the upsert, then the user's `is_onboarded` flag is set. */
    method PutOnboarding(u: int, data: JsObject) returns (r: OnboardingRecord)
      requires IsJson(data)
      modifies this
      ensures r == OnboardingRecord(u, UpsertedFields(old(records), u, data))
      ensures old(FindUser(records, u)).Some? ==> records == old(records)[old(FindUser(records, u).value) := r]
      ensures old(FindUser(records, u)).None? ==> records == old(records) + [r]
      ensures onboarded == old(onboarded) + {u}
      ensures old(Valid()) ==> Valid() && FindUser(records, u).Some? && records[FindUser(records, u).value] == r
    {
      r := Upsert(u, data);
      onboarded := onboarded + {u};
    }
  }
}

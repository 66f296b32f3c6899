/**
 * Values exchanged between the React frontend and the FastAPI backend:
 * JavaScript values as the forms hold them, the onboarding profile as an
 * object keyed by its fifteen fields, and the selection records the
 * universities endpoint returns.
 */
module Wire {

  datatype Option<T> = None | Some(value: T)

  /** How an awaited `fetch` ended: it threw (network failure) or it returned a value. */
  datatype Fetch<T> = Threw | Returned(value: T)

  /** A JavaScript value as the onboarding form and the fetched JSON hold it. */
  datatype JsValue = Undefined | Null | Str(s: string) | Num(n: int)

  /** JavaScript truthiness: `undefined`, `null`, `''` and `0` are falsy. */
  predicate Truthy(v: JsValue)
  {
    match v
    case Undefined => false
    case Null => false
    case Str(s) => s != ""
    case Num(n) => n != 0
  }

  /** The operands on which `??` falls through to its right-hand side. */
  predicate Nullish(v: JsValue)
  {
    v.Undefined? || v.Null?
  }

  /** `a ?? b` */
  function Coalesce(a: JsValue, b: JsValue): (r: JsValue)
    ensures Nullish(a) ==> r == b
    ensures !Nullish(a) ==> r == a
  {
    if Nullish(a) then b else a
  }

  /** `a || b` */
  function Or(a: JsValue, b: JsValue): (r: JsValue)
    ensures Truthy(a) ==> r == a
    ensures !Truthy(a) ==> r == b
  {
    if Truthy(a) then a else b
  }

  /** The fields of the onboarding profile, in schema order. */
  datatype Field =
    | CurrentEducationLevel | DegreeMajor | GraduationYear | GpaOrPercentage
    | IntendedDegree | FieldOfStudy | TargetIntakeYear | PreferredCountries
    | BudgetRangePerYear | FundingPlan
    | IeltsToeflStatus | IeltsToeflScore | GreGmatStatus | GreGmatScore | SopStatus

  const AllFields: set<Field> := {
    CurrentEducationLevel, DegreeMajor, GraduationYear, GpaOrPercentage,
    IntendedDegree, FieldOfStudy, TargetIntakeYear, PreferredCountries,
    BudgetRangePerYear, FundingPlan,
    IeltsToeflStatus, IeltsToeflScore, GreGmatStatus, GreGmatScore, SopStatus
  }

  /** Every field is listed in the schema. */
  lemma EveryFieldInSchema(f: Field)
    ensures f in AllFields
  {
    match f
    case CurrentEducationLevel =>
    case DegreeMajor =>
    case GraduationYear =>
    case GpaOrPercentage =>
    case IntendedDegree =>
    case FieldOfStudy =>
    case TargetIntakeYear =>
    case PreferredCountries =>
    case BudgetRangePerYear =>
    case FundingPlan =>
    case IeltsToeflStatus =>
    case IeltsToeflScore =>
    case GreGmatStatus =>
    case GreGmatScore =>
    case SopStatus =>
  }

  lemma SchemaHasEveryField()
    ensures forall f: Field :: f in AllFields
  {
    forall f: Field
      ensures f in AllFields
    {
      EveryFieldInSchema(f);
    }
  }

  /** An onboarding object; a key that is not in the map is an absent property. */
  type JsObject = map<Field, JsValue>

  /** The object has a property for every field of the profile. */
  predicate HasAllFields(o: JsObject)
  {
    forall k: Field :: k in o
  }

  /** Property access `o.k`: an absent property reads as `undefined`. */
  function Get(o: JsObject, k: Field): (v: JsValue)
    ensures k !in o ==> v == Undefined
    ensures k in o ==> v == o[k]
  {
    if k in o then o[k] else Undefined
  }

  /** A value that came out of `JSON.parse`: no property holds `undefined`. */
  predicate IsJson(o: JsObject)
  {
    forall k :: k in o ==> !o[k].Undefined?
  }

  /**
   * `JSON.stringify` leaves out every property whose value is `undefined`;
   * what remains is the set of fields the backend sees as explicitly set.
   */
  function Stringify(o: JsObject): (w: JsObject)
    ensures IsJson(w)
    ensures forall k :: k in w <==> k in o && !o[k].Undefined?
    ensures forall k :: k in w ==> w[k] == o[k]
  {
    map k | k in o && !o[k].Undefined? :: o[k]
  }

  /** One selection as `GET /universities` returns it: `{university_id, status}`. */
  datatype Selection = Selection(universityId: string, status: string)
}

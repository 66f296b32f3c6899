/**
 * The onboarding wizard: a form of fifteen fields filled over four steps,
 * loaded from the stored profile and saved with a PUT on every step forward
 * and on submit.
 */
module Onboarding {
  import opened Wire

  /** The value of a field in the form before anything is loaded or typed. */
  function DefaultValue(k: Field): JsValue
  {
    match k
    case GraduationYear => Undefined
    case TargetIntakeYear => Undefined
    case IeltsToeflStatus => Str("not_taken")
    case GreGmatStatus => Str("not_taken")
    case SopStatus => Str("Not started")
    case _ => Str("")
  }

  /** `defaultForm` */
  const DefaultForm: JsObject := map k | k in AllFields :: DefaultValue(k)

  /** The two numeric fields, which the form keeps `undefined` when empty. */
  predicate IsYear(k: Field)
  {
    k == GraduationYear || k == TargetIntakeYear
  }

  /** The two exam scores, each governed by a status field. */
  predicate IsScore(k: Field)
  {
    k == IeltsToeflScore || k == GreGmatScore
  }

  /** The status field that governs a score. */
  function StatusOf(score: Field): Field
    requires IsScore(score)
  {
    if score == IeltsToeflScore then IeltsToeflStatus else GreGmatStatus
  }

  /** The form holds every field, and only the years may be `undefined`. */
  predicate WellFormed(form: JsObject)
  {
    HasAllFields(form) && forall k :: k in form && form[k].Undefined? ==> IsYear(k)
  }

  /** Every field of the default form holds its default value. */
  lemma DefaultFormAt(k: Field)
    ensures k in DefaultForm && DefaultForm[k] == DefaultValue(k)
  {
    EveryFieldInSchema(k);
  }

  lemma DefaultFormWellFormed()
    ensures WellFormed(DefaultForm)
    ensures forall k :: k in DefaultForm && DefaultForm[k] == DefaultValue(k)
  {
    forall k
      ensures k in DefaultForm && DefaultForm[k] == DefaultValue(k)
    {
      DefaultFormAt(k);
    }
  }

  /**
   * The merge applied to a fetched profile: the fetched fields override the
   * defaults, the missing ones keep them, and a null year becomes `undefined`.
   * A null in any other field overrides its default.
   */
  function Loaded(data: JsObject): (form: JsObject)
    ensures HasAllFields(form)
    ensures IsJson(data) ==> WellFormed(form)
  {
    DefaultFormWellFormed();
    (DefaultForm + data)
      [GraduationYear := Coalesce(Get(data, GraduationYear), Undefined)]
      [TargetIntakeYear := Coalesce(Get(data, TargetIntakeYear), Undefined)]
  }

  /**
   * Field by field, the loaded form holds the fetched value, or the default
   * when the field was not fetched, except that a year holds `undefined`
   * when fetched as null or not fetched.
   */
  lemma LoadedField(data: JsObject, k: Field)
    ensures k in Loaded(data)
    ensures k in data && !IsYear(k) ==> Loaded(data)[k] == data[k]
    ensures k !in data ==> Loaded(data)[k] == DefaultValue(k)
    ensures IsYear(k) ==> Loaded(data)[k] == Coalesce(Get(data, k), Undefined)
  {
    DefaultFormAt(k);
  }

  /** A status stored as null replaces the form's `not_taken` default on load. */
  lemma LoadedKeepsNullStatus()
    ensures Loaded(map[IeltsToeflStatus := Null])[IeltsToeflStatus] == Null
    ensures DefaultValue(IeltsToeflStatus) == Str("not_taken")
  {
    LoadedField(map[IeltsToeflStatus := Null], IeltsToeflStatus);
  }

  /** `update(key, value)`: sets one field, storing `''` for a nullish value. */
  function Updated(form: JsObject, key: Field, value: JsValue): (r: JsObject)
    ensures r.Keys == form.Keys + {key}
    ensures forall k :: k in form && k != key ==> r[k] == form[k]
    ensures Nullish(value) ==> r[key] == Str("")
    ensures !Nullish(value) ==> r[key] == value
    ensures WellFormed(form) ==> WellFormed(r)
  {
    form[key := Coalesce(value, Str(""))]
  }

  /**
   * The object passed to `JSON.stringify` in `saveProgress` and
   * `handleSubmit`: the form spread, then both years and both scores
   * overridden. What each field ends up holding is `RequestBodyField`.
   */
  function RequestBody(form: JsObject): JsObject
  {
    form
      [GraduationYear := Or(Get(form, GraduationYear), Null)]
      [TargetIntakeYear := Or(Get(form, TargetIntakeYear), Null)]
      [IeltsToeflScore := if Get(form, IeltsToeflStatus) == Str("taken") then Get(form, IeltsToeflScore) else Null]
      [GreGmatScore := if Get(form, GreGmatStatus) == Str("taken") then Get(form, GreGmatScore) else Null]
  }

  /**
   * Field by field, the request body holds the form, except that a falsy
   * year is sent as null and a score is sent only when its status is
   * "taken", and as null otherwise.
   */
  lemma RequestBodyField(form: JsObject, k: Field)
    ensures k in RequestBody(form) <==> k in form || IsYear(k) || IsScore(k)
    ensures k in form && !IsYear(k) && !IsScore(k) ==> RequestBody(form)[k] == form[k]
    ensures IsYear(k) && Truthy(Get(form, k)) ==> RequestBody(form)[k] == form[k]
    ensures IsYear(k) && !Truthy(Get(form, k)) ==> RequestBody(form)[k] == Null
    ensures IsScore(k) && Get(form, StatusOf(k)) == Str("taken") ==> RequestBody(form)[k] == Get(form, k)
    ensures IsScore(k) && Get(form, StatusOf(k)) != Str("taken") ==> RequestBody(form)[k] == Null
  {
  }

  /**
   * The request body of a well-formed form has every field and no
   * `undefined` value, and never carries a score whose exam is not taken.
   */
  lemma RequestBodyFacts(form: JsObject)
    ensures WellFormed(form) ==> forall k :: k in RequestBody(form) && !RequestBody(form)[k].Undefined?
    ensures forall k :: IsScore(k) && k in RequestBody(form) && RequestBody(form)[k] != Null ==> Get(form, StatusOf(k)) == Str("taken")
  {
    forall k
      ensures WellFormed(form) ==> k in RequestBody(form) && !RequestBody(form)[k].Undefined?
      ensures IsScore(k) && k in RequestBody(form) && RequestBody(form)[k] != Null ==> Get(form, StatusOf(k)) == Str("taken")
    {
      RequestBodyField(form, k);
      if IsScore(k) {
        RequestBodyField(form, StatusOf(k));
      }
    }
  }

  /** What the server receives when the form is saved. */
  function Sent(form: JsObject): (body: JsObject)
    ensures IsJson(body)
    ensures WellFormed(form) ==> HasAllFields(body)
    ensures forall k :: IsScore(k) && k in body && body[k] != Null ==> Get(form, StatusOf(k)) == Str("taken")
  {
    RequestBodyFacts(form);
    Stringify(RequestBody(form))
  }

  /** One field of the body a well-formed form sends. */
  lemma SentField(form: JsObject, k: Field)
    requires WellFormed(form)
    ensures k in Sent(form)
    ensures Sent(form)[k] ==
      if IsYear(k) then (if Truthy(form[k]) then form[k] else Null)
      else if IsScore(k) then (if form[StatusOf(k)] == Str("taken") then form[k] else Null)
      else form[k]
  {
    RequestBodyField(form, k);
    if IsScore(k) {
      RequestBodyField(form, StatusOf(k));
    }
  }

  /** A field that is neither a year nor a score reads the same in the body as in the form. */
  lemma SentKeepsPlainField(form: JsObject, k: Field)
    requires WellFormed(form) && !IsYear(k) && !IsScore(k)
    ensures Get(Sent(form), k) == Get(form, k)
  {
    SentField(form, k);
  }

  /** One field of the form loaded back from what a well-formed form sent. */
  lemma SaveThenLoadField(form: JsObject, k: Field)
    requires WellFormed(form)
    ensures Loaded(Sent(form))[k] ==
      if IsYear(k) then (if Truthy(form[k]) then form[k] else Undefined)
      else if IsScore(k) then (if form[StatusOf(k)] == Str("taken") then form[k] else Null)
      else form[k]
  {
    SentField(form, k);
    LoadedField(Sent(form), k);
  }

  /**
   * Saving a well-formed form and loading the stored profile back gives the
   * form again, except that a falsy year comes back `undefined` and the
   * score of an exam not taken comes back null.
   */
  lemma SaveThenLoad(form: JsObject)
    requires WellFormed(form)
    ensures var back := Loaded(Sent(form));
      && WellFormed(back)
      && (forall k :: !IsYear(k) && !IsScore(k) ==> back[k] == form[k])
      && (forall k :: IsYear(k) ==> back[k] == (if Truthy(form[k]) then form[k] else Undefined))
      && (forall k :: IsScore(k) ==> back[k] == (if form[StatusOf(k)] == Str("taken") then form[k] else Null))
  {
    forall k {
      SaveThenLoadField(form, k);
    }
  }

  /** Saving the loaded-back form sends, field by field, what was sent before. */
  lemma SaveLoadSaveField(form: JsObject, k: Field)
    requires WellFormed(form)
    ensures k in Sent(Loaded(Sent(form))) && k in Sent(form)
    ensures Sent(Loaded(Sent(form)))[k] == Sent(form)[k]
  {
    var back := Loaded(Sent(form));
    SentField(form, k);
    SentField(back, k);
    SaveThenLoadField(form, k);
    if IsScore(k) {
      SaveThenLoadField(form, StatusOf(k));
    }
  }

  /** Loading a saved profile and saving it again sends the same body. */
  lemma SaveLoadSave(form: JsObject)
    requires WellFormed(form)
    ensures Sent(Loaded(Sent(form))) == Sent(form)
  {
    forall k {
      SaveLoadSaveField(form, k);
    }
  }

  /** The wizard's step, 1 to 4. */
  type Step = s: int | 1 <= s <= 4 witness 1

  class OnboardingPage {
    var form: JsObject
    var currentStep: Step
    var loading: bool
    var submitting: bool

    constructor ()
      ensures form == DefaultForm && WellFormed(form)
      ensures currentStep == 1 && loading && !submitting
    {
      DefaultFormWellFormed();
      form := DefaultForm;
      currentStep := 1;
      loading := true;
      submitting := false;
    }

    /**
     * The mount effect: a fetched profile is merged into the form; a failed
     * response, an empty one or a thrown fetch leaves the form as it was.
     */
    method Load(response: Fetch<Option<JsObject>>)
      requires response.Returned? && response.value.Some? ==> IsJson(response.value.value)
      modifies this`form, this`loading
      ensures !loading
      ensures response.Returned? && response.value.Some? ==> form == Loaded(response.value.value)
      ensures !(response.Returned? && response.value.Some?) ==> form == old(form)
      ensures old(WellFormed(form)) ==> WellFormed(form)
    {
      if response.Returned? {
        var data := response.value;
        if data.Some? {
          form := Loaded(data.value);
        }
      }
      loading := false;
    }

    /** `update` */
    method Update(key: Field, value: JsValue)
      modifies this`form
      ensures form == Updated(old(form), key, value)
      ensures old(WellFormed(form)) ==> WellFormed(form)
    {
      form := Updated(form, key, value);
    }

    /** `saveProgress`: the body it sends; a failure is only logged. */
    method SaveProgress() returns (body: JsObject)
      ensures body == Sent(form)
      ensures IsJson(body)
      ensures WellFormed(form) ==> HasAllFields(body)
    {
      body := Stringify(RequestBody(form));
    }

    /** `nextStep`: saves, then advances, unless on the last step. */
    method NextStep() returns (saved: Option<JsObject>)
      modifies this`currentStep
      ensures old(currentStep) < 4 ==> currentStep == old(currentStep) + 1 && saved == Some(Sent(form))
      ensures old(currentStep) == 4 ==> currentStep == 4 && saved == None
    {
      if currentStep < 4 {
        var body := SaveProgress();
        saved := Some(body);
        currentStep := currentStep + 1;
      } else {
        saved := None;
      }
    }

    /** `prevStep`: goes back, unless on the first step. */
    method PrevStep()
      modifies this`currentStep
      ensures old(currentStep) > 1 ==> currentStep == old(currentStep) - 1
      ensures old(currentStep) == 1 ==> currentStep == 1
    {
      if currentStep > 1 {
        currentStep := currentStep - 1;
      }
    }

    /**
     * `handleSubmit`: sends the body and goes to the dashboard when the
     * response is ok; `submitting` is reset however the request ends.
     */
    method HandleSubmit(responseOk: Fetch<bool>) returns (body: JsObject, destination: Option<string>)
      modifies this`submitting
      ensures body == Sent(form)
      ensures destination.Some? <==> responseOk == Returned(true)
      ensures destination.Some? ==> destination.value == "/dashboard"
      ensures !submitting
    {
      submitting := true;
      body := Stringify(RequestBody(form));
      destination := None;
      if responseOk.Returned? && responseOk.value {
        destination := Some("/dashboard");
      }
      submitting := false;
    }
  }
}

/**
 * The three-step profile-completion wizard: a step index, the values accumulated from
 * the steps already submitted, the pending flag of the completion request, and the
 * coordinates of the IP lookup.
 *
 * The transitions are given first as functions on a `FormState` value; the class
 * `CompleteProfileForm` at the end keeps the same state in fields, and each of its
 * methods is proved to move from `old(State())` to the state those functions give.
 */
module ProfileWizard {
  import opened Wrappers
  import opened FormSchema

  // ---------------------------------------------------------------------------
  // Steps and their schemas
  // ---------------------------------------------------------------------------

  /** The entries of `steps`, in order. */
  datatype StepId = PersonalInfo | AddressInfo | InterestsInfo

  const Steps: seq<StepId> := [PersonalInfo, AddressInfo, InterestsInfo]
  const LastStep: int := |Steps| - 1

  /** The position of a step in `steps`. */
  function StepIndex(s: StepId): (i: nat)
    ensures i < |Steps| && Steps[i] == s
  {
    match s
    case PersonalInfo => 0
    case AddressInfo => 1
    case InterestsInfo => 2
  }

  function SchemaOf(s: StepId): Schema
  {
    match s
    case PersonalInfo => PersonalInfoSchema
    case AddressInfo => AddressInfoSchema
    case InterestsInfo => InterestsSchema
  }

  /**
   * `getCurrentSchema`: the step at that position of `steps`, and the personal step for
   * any index outside them.
   */
  function CurrentSchema(step: int): (s: StepId)
    ensures 0 <= step < |Steps| ==> s == Steps[step]
    ensures !(0 <= step < |Steps|) ==> s == PersonalInfo
  {
    if step == 1 then AddressInfo else if step == 2 then InterestsInfo else PersonalInfo
  }

  /** `getCurrentSchema` undoes `StepIndex`, and distinct indexes in range select distinct steps. */
  lemma CurrentSchemaInvertsStepIndex(s: StepId, i: int, j: int)
    ensures CurrentSchema(StepIndex(s)) == s
    ensures 0 <= i < |Steps| && 0 <= j < |Steps| && i != j ==> CurrentSchema(i) != CurrentSchema(j)
  {
  }

  // ---------------------------------------------------------------------------
  // The final payload
  // ---------------------------------------------------------------------------

  /** `data.interests.map((interest) => interest.value)`. */
  function InterestValues(tags: seq<Interest>): (r: seq<string>)
    ensures |r| == |tags|
    ensures forall i :: 0 <= i < |tags| ==> r[i] == tags[i].value
  {
    if tags == [] then [] else [tags[0].value] + InterestValues(tags[1..])
  }

  /** Flattening distributes over concatenation, so it keeps the order of the interests. */
  lemma {:induction false} InterestValuesAppend(a: seq<Interest>, b: seq<Interest>)
    ensures InterestValues(a + b) == InterestValues(a) + InterestValues(b)
  {
    if a != [] {
      assert (a + b)[1..] == a[1..] + b;
      InterestValuesAppend(a[1..], b);
    }
  }

  /** Assigns the lookup's coordinate to a field only when the field is undefined. */
  function FillIfUndefined(m: map<Field, Value>, f: Field, lookup: Option<real>): map<Field, Value>
  {
    if f in m then m
    else match lookup
      case Some(x) => m[f := Number(x)]
      case None => m
  }

  /**
   * The body of the final step of `onSubmit`: step data spread over the accumulated
   * values, undefined coordinates taken from the lookup, and the interests flattened to
   * their values. `None` when `data.interests` is not an interest list, where `.map`
   * throws and the catch block only logs.
   */
  function FinalPayload(values: map<Field, Value>, data: map<Field, Value>,
                        latitude: Option<real>, longitude: Option<real>): Option<map<Field, Value>>
  {
    if Interests in data && data[Interests].InterestList? then
      var finalData := FillIfUndefined(FillIfUndefined(values + data, Latitude, latitude), Longitude, longitude);
      Some(finalData[Interests := TextList(InterestValues(data[Interests].interests))])
    else
      None
  }

  /**
   * What the emitted payload holds, field by field: the step data wins over the
   * accumulated values; a coordinate comes from the lookup only when neither defines
   * it, and a defined one is never overwritten; the interests are the values of the
   * step's interests, in the same order.
   */
  lemma FinalPayloadFields(values: map<Field, Value>, data: map<Field, Value>,
                           latitude: Option<real>, longitude: Option<real>)
    requires Interests in data && data[Interests].InterestList?
    ensures FinalPayload(values, data, latitude, longitude).Some?
    ensures var p := FinalPayload(values, data, latitude, longitude).value;
      && (forall f :: f in data && f != Interests ==> f in p && p[f] == data[f])
      && (forall f :: f in values && f !in data && f != Interests ==> f in p && p[f] == values[f])
      && (forall f :: f in p ==> f in values || f in data || f == Latitude || f == Longitude)
      && (Latitude !in values && Latitude !in data ==>
            (Latitude in p <==> latitude.Some?) && (latitude.Some? ==> p[Latitude] == Number(latitude.value)))
      && (Longitude !in values && Longitude !in data ==>
            (Longitude in p <==> longitude.Some?) && (longitude.Some? ==> p[Longitude] == Number(longitude.value)))
      && Interests in p && p[Interests].TextList?
      && |p[Interests].texts| == |data[Interests].interests|
      && (forall i :: 0 <= i < |data[Interests].interests| ==>
            p[Interests].texts[i] == data[Interests].interests[i].value)
  {
  }

  // ---------------------------------------------------------------------------
  // Wizard state and transitions
  // ---------------------------------------------------------------------------

  /**
   * The wizard's state: `currentStep`, `previousStep`, `formValues`, the mutation's
   * `isPending`, the coordinates the IP lookup produced, and the payloads handed to
   * `mutate` so far.
   */
  datatype FormState = FormState(
    step: int,
    previousStep: int,
    values: map<Field, Value>,
    pending: bool,
    ipLatitude: Option<real>,
    ipLongitude: Option<real>,
    sent: seq<map<Field, Value>>)

  /** The state on mount: first step, nothing accumulated, no lookup result, no request. */
  const Initial: FormState := FormState(0, 0, map[], false, None, None, [])

  /** `onSubmit(data)`, where `data` is already the current step schema's output. */
  function AfterOnSubmit(st: FormState, data: map<Field, Value>): FormState
  {
    if st.step == LastStep then
      match FinalPayload(st.values, data, st.ipLatitude, st.ipLongitude)
      case Some(payload) => st.(pending := true, sent := st.sent + [payload])
      case None => st
    else if st.step < LastStep then
      st.(values := st.values + data, previousStep := st.step, step := st.step + 1)
    else
      st
  }

  /**
   * Pressing the submit button: nothing while the request is pending (the button is
   * disabled); otherwise the current step's schema validates the form, and `onSubmit`
   * receives the parsed data when it passes.
   */
  function AfterSubmit(st: FormState, raw: map<Field, Value>): FormState
  {
    if st.pending then st
    else match Parse(SchemaOf(CurrentSchema(st.step)), raw)
      case None => st
      case Some(data) => AfterOnSubmit(st, data)
  }

  /** `prev`. */
  function AfterPrev(st: FormState): FormState
  {
    if st.step > 0 then st.(previousStep := st.step, step := st.step - 1) else st
  }

  /** The completion request settles, in success or in error. */
  function AfterSettle(st: FormState): FormState
  {
    st.(pending := false)
  }

  /** The IP lookup resolves: `setLongitude(data?.lon)`, `setLatitude(data?.lat)`. */
  function AfterLocate(st: FormState, latitude: Option<real>, longitude: Option<real>): FormState
  {
    st.(ipLatitude := latitude, ipLongitude := longitude)
  }

  datatype Event =
    | SubmitPressed(raw: map<Field, Value>)
    | PrevPressed
    | RequestSettled
    | LookupResolved(latitude: Option<real>, longitude: Option<real>)

  function AfterEvent(st: FormState, e: Event): FormState
  {
    match e
    case SubmitPressed(raw) => AfterSubmit(st, raw)
    case PrevPressed => AfterPrev(st)
    case RequestSettled => AfterSettle(st)
    case LookupResolved(lat, lon) => AfterLocate(st, lat, lon)
  }

  function Run(st: FormState, events: seq<Event>): FormState
    decreases |events|
  {
    if events == [] then st else Run(AfterEvent(st, events[0]), events[1..])
  }

  // ---------------------------------------------------------------------------
  // Properties of the transitions
  // ---------------------------------------------------------------------------

  /**
   * From a non-final step, submit advances exactly when the step's schema accepts the
   * form: it then merges the parsed step data into the values, records the old step as
   * previous and moves on by one; otherwise nothing changes. No request is sent.
   */
  lemma AdvanceIffStepValid(st: FormState, raw: map<Field, Value>)
    requires !st.pending && 0 <= st.step < LastStep
    ensures var r := AfterSubmit(st, raw);
      && (r.step == st.step + 1 <==> Accepts(SchemaOf(Steps[st.step]), raw))
      && (Accepts(SchemaOf(Steps[st.step]), raw) ==>
            && r.values == st.values + Parse(SchemaOf(Steps[st.step]), raw).value
            && r.previousStep == st.step)
      && (!Accepts(SchemaOf(Steps[st.step]), raw) ==> r == st)
      && r.sent == st.sent && r.pending == st.pending
  {
  }

  /**
   * Advancing stores only fields of the step being left: every other accumulated value
   * stays as it was.
   */
  lemma AdvanceKeepsOtherSteps(st: FormState, raw: map<Field, Value>)
    requires !st.pending && 0 <= st.step < LastStep
    ensures var r := AfterSubmit(st, raw);
      && r.values.Keys <= st.values.Keys + SchemaOf(Steps[st.step])
      && forall f :: f in st.values && f !in SchemaOf(Steps[st.step]) ==> f in r.values && r.values[f] == st.values[f]
  {
  }

  /**
   * At the last step a submit that the interests schema accepts keeps the step and
   * the accumulated values, marks the request pending and emits exactly one payload:
   * the final payload of the accumulated values and the parsed step data.
   */
  lemma FinalSubmitEmitsPayload(st: FormState, raw: map<Field, Value>)
    requires !st.pending && st.step == LastStep && Accepts(InterestsSchema, raw)
    ensures var data := Parse(InterestsSchema, raw).value;
      && FinalPayload(st.values, data, st.ipLatitude, st.ipLongitude).Some?
      && AfterSubmit(st, raw) == st.(pending := true,
           sent := st.sent + [FinalPayload(st.values, data, st.ipLatitude, st.ipLongitude).value])
  {
    InterestsAccepts(raw);
  }

  /**
   * At the last step a payload goes out exactly when no request is pending and the
   * interests schema accepts the form; a refused submit changes nothing.
   */
  lemma FinalSubmitSendsIffAccepted(st: FormState, raw: map<Field, Value>)
    requires st.step == LastStep
    ensures |AfterSubmit(st, raw).sent| == |st.sent| + 1 <==> !st.pending && Accepts(InterestsSchema, raw)
    ensures !Accepts(InterestsSchema, raw) ==> AfterSubmit(st, raw) == st
  {
    if !st.pending && Accepts(InterestsSchema, raw) {
      FinalSubmitEmitsPayload(st, raw);
    }
  }

  /** While a request is pending, submit changes nothing. */
  lemma PendingBlocksSubmit(st: FormState, raw: map<Field, Value>)
    requires st.pending
    ensures AfterSubmit(st, raw) == st
  {
  }

  /** `prev` moves back one step exactly when above the first, and never touches the values. */
  lemma PrevOnlyRetreats(st: FormState)
    ensures AfterPrev(st).values == st.values && AfterPrev(st).sent == st.sent
    ensures AfterPrev(st).pending == st.pending
    ensures st.step > 0 ==> AfterPrev(st).step == st.step - 1 && AfterPrev(st).previousStep == st.step
    ensures st.step <= 0 ==> AfterPrev(st) == st
  {
  }

  /**
   * The invariant every reachable state keeps: the step is within `steps`, and the
   * accumulated values hold fields of the first two steps only (the interests are
   * never stored, they go straight into the payload).
   */
  predicate WellFormed(st: FormState)
  {
    && 0 <= st.step <= LastStep
    && st.values.Keys <= PersonalInfoSchema + AddressInfoSchema
  }

  lemma InitialWellFormed()
    ensures WellFormed(Initial)
  {
  }

  lemma EventPreservesWellFormed(st: FormState, e: Event)
    requires WellFormed(st)
    ensures WellFormed(AfterEvent(st, e))
  {
    if e.SubmitPressed? && !st.pending && 0 <= st.step < LastStep {
      AdvanceKeepsOtherSteps(st, e.raw);
    }
  }

  /** Any sequence of events from a well-formed state, the initial one included, stays well formed. */
  lemma {:induction false} RunPreservesWellFormed(st: FormState, events: seq<Event>)
    requires WellFormed(st)
    ensures WellFormed(Run(st, events))
    ensures 0 <= Run(st, events).step <= 2
    decreases |events|
  {
    if events != [] {
      EventPreservesWellFormed(st, events[0]);
      RunPreservesWellFormed(AfterEvent(st, events[0]), events[1..]);
    }
  }

  /** How many times the request settles in a sequence of events. */
  function Settlements(events: seq<Event>): nat
    decreases |events|
  {
    if events == [] then 0
    else (if events[0].RequestSettled? then 1 else 0) + Settlements(events[1..])
  }

  /** Requests sent plus one if a new one may be sent: an event raises it only by settling. */
  function Budget(st: FormState): nat
  {
    |st.sent| + if st.pending then 0 else 1
  }

  lemma EventBudget(st: FormState, e: Event)
    ensures |AfterEvent(st, e).sent| >= |st.sent|
    ensures Budget(AfterEvent(st, e)) <= Budget(st) + if e.RequestSettled? then 1 else 0
  {
  }

  /**
   * No two requests without a settlement between them: over any sequence of events the
   * number of payloads sent grows by at most the number of settlements, plus one when
   * no request was pending at the start.
   */
  lemma {:induction false} RequestsBoundedBySettlements(st: FormState, events: seq<Event>)
    ensures |Run(st, events).sent| <= |st.sent| + (if st.pending then 0 else 1) + Settlements(events)
    ensures Budget(Run(st, events)) <= Budget(st) + Settlements(events)
    decreases |events|
  {
    if events != [] {
      EventBudget(st, events[0]);
      RequestsBoundedBySettlements(AfterEvent(st, events[0]), events[1..]);
    }
  }

  /** Without a settlement, a sequence of events sends at most one request, and none while one is pending. */
  lemma AtMostOneRequestInFlight(st: FormState, events: seq<Event>)
    requires Settlements(events) == 0
    ensures |Run(st, events).sent| <= |st.sent| + 1
    ensures st.pending ==> |Run(st, events).sent| == |st.sent|
  {
    RequestsBoundedBySettlements(st, events);
    SentOnlyGrows(st, events);
  }

  lemma {:induction false} SentOnlyGrows(st: FormState, events: seq<Event>)
    ensures |Run(st, events).sent| >= |st.sent|
    ensures Run(st, events).sent[..|st.sent|] == st.sent
    decreases |events|
  {
    if events != [] {
      var next := AfterEvent(st, events[0]);
      EventBudget(st, events[0]);
      assert next.sent[..|st.sent|] == st.sent;
      SentOnlyGrows(next, events[1..]);
    }
  }

  // ---------------------------------------------------------------------------
  // The component, with its state in fields
  // ---------------------------------------------------------------------------

  class CompleteProfileForm {
    var currentStep: int
    var previousStep: int
    var formValues: map<Field, Value>
    var isPending: bool
    var latitude: Option<real>
    var longitude: Option<real>
    /** The payloads passed to `mutate`, oldest first. */
    var requests: seq<map<Field, Value>>

    ghost function State(): FormState
      reads this
    {
      FormState(currentStep, previousStep, formValues, isPending, latitude, longitude, requests)
    }

    ghost predicate Valid()
      reads this
    {
      WellFormed(State())
    }

    constructor ()
      ensures Valid() && State() == Initial
    {
      currentStep, previousStep := 0, 0;
      formValues := map[];
      isPending := false;
      latitude, longitude := None, None;
      requests := [];
    }

    /** The form's submit event, through `handleSubmit(onSubmit)`. */
    method Submit(raw: map<Field, Value>)
      requires Valid()
      modifies this
      ensures Valid()
      ensures State() == AfterSubmit(old(State()), raw)
    {
      if isPending {
        return;
      }
      var parsed := Parse(SchemaOf(CurrentSchema(currentStep)), raw);
      if parsed.Some? {
        EventPreservesWellFormed(State(), SubmitPressed(raw));
        OnSubmit(parsed.value);
      }
    }

    method OnSubmit(data: map<Field, Value>)
      modifies this
      ensures State() == AfterOnSubmit(old(State()), data)
    {
      if currentStep == LastStep {
        var finalData := formValues + data;
        if Latitude !in finalData && latitude.Some? {
          finalData := finalData[Latitude := Number(latitude.value)];
        }
        if Longitude !in finalData && longitude.Some? {
          finalData := finalData[Longitude := Number(longitude.value)];
        }
        if Interests in data && data[Interests].InterestList? {
          var transformed := finalData[Interests := TextList(InterestValues(data[Interests].interests))];
          Mutate(transformed);
        }
      }
      if currentStep < LastStep {
        formValues := formValues + data;
        previousStep := currentStep;
        currentStep := currentStep + 1;
      }
    }

    /** `mutate(payload)`: the request starts and the mutation is pending. */
    method Mutate(payload: map<Field, Value>)
      modifies this
      ensures State() == old(State()).(pending := true, sent := old(State()).sent + [payload])
    {
      requests := requests + [payload];
      isPending := true;
    }

    method Prev()
      requires Valid()
      modifies this
      ensures Valid()
      ensures State() == AfterPrev(old(State()))
    {
      if currentStep > 0 {
        previousStep := currentStep;
        currentStep := currentStep - 1;
      }
    }

    /** The mutation's `onSuccess` or `onError` has run: the request is no longer pending. */
    method Settle()
      requires Valid()
      modifies this
      ensures Valid()
      ensures State() == AfterSettle(old(State()))
    {
      isPending := false;
    }

    /** The `getLocationByIp` effect resolves. */
    method Locate(lat: Option<real>, lon: Option<real>)
      requires Valid()
      modifies this
      ensures Valid()
      ensures State() == AfterLocate(old(State()), lat, lon)
    {
      latitude, longitude := lat, lon;
    }
  }
}

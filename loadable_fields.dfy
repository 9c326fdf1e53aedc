/**
 * The configurable form of a source whose fields come from an Airbyte
 * connector specification
 * (`SourceEditorFormConfigurationConfigurableLoadableFields.tsx`): the spec
 * request path, the classification of the backend's answer, the choice of
 * what to render, one polling attempt with its control bracket, the
 * validator's error count and the two patch handlers.
 *
 * `backendApiClient.get`, `mapAirbyteSpecToSourceConnectorConfig` and
 * `toTitleCase` are not part of this model; they are passed in as functions.
 */
module LoadableFields {
  import opened Wrappers

  // ---------------------------------------------------------------------
  // The request path
  // ---------------------------------------------------------------------

  /** `pat` occurs in `s` at position `j`. */
  predicate OccursAt(s: string, pat: string, j: nat) {
    j + |pat| <= |s| && s[j..j + |pat|] == pat
  }

  /** `pat` occurs nowhere in `s` at a position in `[lo, hi)`. */
  predicate NoneBetween(s: string, pat: string, lo: nat, hi: nat) {
    forall j: nat :: lo <= j < hi ==> !OccursAt(s, pat, j)
  }

  /** `i` is the position of the first occurrence of `pat` in `s`. */
  predicate FirstOccurrence(s: string, pat: string, i: nat) {
    OccursAt(s, pat, i) && NoneBetween(s, pat, 0, i)
  }

  /** The first position at or after `k` where `pat` occurs in `s`. */
  function IndexOfFrom(s: string, pat: string, k: nat): (r: Option<nat>)
    requires k <= |s|
    ensures r.Some? ==> k <= r.value && OccursAt(s, pat, r.value) && NoneBetween(s, pat, k, r.value)
    ensures r.None? ==> NoneBetween(s, pat, k, |s| + 1)
    decreases |s| - k
  {
    if k + |pat| > |s| then None
    else if s[k..k + |pat|] == pat then Some(k)
    else if k == |s| then None
    else IndexOfFrom(s, pat, k + 1)
  }

  lemma FirstOccurrenceUnique(s: string, pat: string, i: nat, i': nat)
    requires FirstOccurrence(s, pat, i) && FirstOccurrence(s, pat, i')
    ensures i == i'
  {
  }

  /** JavaScript's `s.replace(pat, rep)` for a string pattern: only the first occurrence is replaced. */
  function ReplaceFirst(s: string, pat: string, rep: string): (r: string)
    ensures NoneBetween(s, pat, 0, |s| + 1) ==> r == s
    ensures forall i: nat :: FirstOccurrence(s, pat, i) ==> r == s[..i] + rep + s[i + |pat|..]
  {
    match IndexOfFrom(s, pat, 0)
    case None => s
    case Some(i) =>
      assert forall i': nat :: FirstOccurrence(s, pat, i') ==> i' == i by {
        forall i': nat | FirstOccurrence(s, pat, i') {
          FirstOccurrenceUnique(s, pat, i, i');
        }
      }
      s[..i] + rep + s[i + |pat|..]
  }

  const ConnectorPrefix := "airbyte-"

  /**
   * The path `pullAirbyteSpec` requests: the id with its first `airbyte-`
   * removed, and the project as a query parameter.
   */
  function SpecPath(sourceId: string, projectId: string): (r: string)
    ensures NoneBetween(sourceId, ConnectorPrefix, 0, |sourceId| + 1) ==>
      r == "/airbyte/" + sourceId + "/spec?project_id=" + projectId
    ensures forall i: nat :: FirstOccurrence(sourceId, ConnectorPrefix, i) ==>
      r == "/airbyte/" + sourceId[..i] + sourceId[i + |ConnectorPrefix|..] + "/spec?project_id=" + projectId
  {
    "/airbyte/" + ReplaceFirst(sourceId, ConnectorPrefix, "") + "/spec?project_id=" + projectId
  }

  /** A catalog id that starts with the prefix loses exactly that prefix. */
  lemma SpecPathOfPrefixedId(name: string, projectId: string)
    ensures SpecPath(ConnectorPrefix + name, projectId) == "/airbyte/" + name + "/spec?project_id=" + projectId
  {
    var s := ConnectorPrefix + name;
    assert OccursAt(s, ConnectorPrefix, 0);
    assert s[..0] + "" + s[|ConnectorPrefix|..] == name;
  }

  /** An id without the prefix is used as it is. */
  lemma SpecPathOfPlainId(sourceId: string, projectId: string)
    requires NoneBetween(sourceId, ConnectorPrefix, 0, |sourceId| + 1)
    ensures SpecPath(sourceId, projectId) == "/airbyte/" + sourceId + "/spec?project_id=" + projectId
  {
  }

  /** The prefix is removed where it first occurs, not only at the start. */
  lemma SpecPathRemovesInnerOccurrence(head: string, tail: string, projectId: string)
    requires NoneBetween(head + ConnectorPrefix + tail, ConnectorPrefix, 0, |head|)
    ensures SpecPath(head + ConnectorPrefix + tail, projectId) == "/airbyte/" + head + tail + "/spec?project_id=" + projectId
  {
    RemoveFirstOccurrence(head, ConnectorPrefix, tail);
  }

  lemma RemoveFirstOccurrence(head: string, pat: string, tail: string)
    requires NoneBetween(head + pat + tail, pat, 0, |head|)
    ensures ReplaceFirst(head + pat + tail, pat, "") == head + tail
  {
    var s := head + pat + tail;
    var i := |head|;
    assert s[..i] == head;
    assert s[i..] == pat + tail;
    assert s[i..][..|pat|] == pat && s[i..][|pat|..] == tail;
    assert s[i..i + |pat|] == pat && s[i + |pat|..] == tail;
    assert FirstOccurrence(s, pat, i);
    assert ReplaceFirst(s, pat, "") == head + "" + tail;
    assert head + "" + tail == head + tail;
  }

  // ---------------------------------------------------------------------
  // The answer of the backend
  // ---------------------------------------------------------------------

  /** A field descriptor of the connector's configuration. */
  datatype Parameter = Parameter(id: string, displayName: string, required: bool, typeName: string,
                                 defaultValue: Option<string>)

  /**
   * The JSON the backend answers with: `message`, `status` and
   * `spec.spec.connectionSpecification`, each possibly absent; `S` is the
   * type of the specification document.
   */
  datatype Response<S> = Response(message: Option<string>, status: Option<string>, connectionSpecification: Option<S>)

  /** How an asynchronous call settles: it throws, or returns a value (`None` for `undefined`). */
  datatype Outcome<T> = Thrown(error: string) | Returned(value: Option<T>)

  /** A string is truthy when present and non-empty. */
  predicate Truthy(s: Option<string>) {
    s.Some? && s.value != ""
  }

  /**
   * A synchronous call into code outside this model: it returns a value or
   * throws an error.
   */
  type Call0<T> = Result<T, string>

  /** The signature of `mapAirbyteSpecToSourceConnectorConfig`, handed `undefined` for an absent spec. */
  type Mapper<!S> = Option<S> -> Call0<seq<Parameter>>

  /** The signature of `toTitleCase(text, { separator })`. */
  type TitleCaser = (string, string) -> Call0<string>

  /** The descriptor with its display name title-cased, `_` separating words. */
  function TitleCased(p: Parameter, toTitleCase: TitleCaser): (r: Call0<Parameter>)
    ensures r.Success? <==> toTitleCase(p.displayName, "_").Success?
    ensures r.Success? ==> r.value == p.(displayName := toTitleCase(p.displayName, "_").value)
    ensures r.Failure? ==> r.error == toTitleCase(p.displayName, "_").error
  {
    match toTitleCase(p.displayName, "_")
    case Success(name) => Success(p.(displayName := name))
    case Failure(e) => Failure(e)
  }

  /** Title-casing reaches the descriptor at `i` and throws there. */
  predicate FirstFailure(ps: seq<Parameter>, toTitleCase: TitleCaser, i: nat) {
    && i < |ps|
    && TitleCased(ps[i], toTitleCase).Failure?
    && forall j :: 0 <= j < i ==> TitleCased(ps[j], toTitleCase).Success?
  }

  /**
   * `.map(...)` over the descriptors in order: every descriptor title-cased,
   * or the error of the first call that throws.
   */
  function TitleCaseAll(ps: seq<Parameter>, toTitleCase: TitleCaser): (r: Call0<seq<Parameter>>)
    ensures r.Success? <==> forall i :: 0 <= i < |ps| ==> TitleCased(ps[i], toTitleCase).Success?
    ensures r.Success? ==> |r.value| == |ps|
    ensures r.Success? ==> forall i :: 0 <= i < |ps| ==> TitleCased(ps[i], toTitleCase) == Success(r.value[i])
    ensures forall i: nat :: FirstFailure(ps, toTitleCase, i) ==> r == Failure(TitleCased(ps[i], toTitleCase).error)
  {
    if ps == [] then Success([])
    else
      match TitleCased(ps[0], toTitleCase)
      case Failure(e) => Failure(e)
      case Success(p) =>
        var rest := TitleCaseAll(ps[1..], toTitleCase);
        assert forall i: nat :: FirstFailure(ps, toTitleCase, i) ==> i > 0 && FirstFailure(ps[1..], toTitleCase, i - 1) by {
          forall i: nat | FirstFailure(ps, toTitleCase, i)
            ensures i > 0 && FirstFailure(ps[1..], toTitleCase, i - 1)
          {
            assert forall j :: 0 <= j < i - 1 ==> ps[1..][j] == ps[j + 1];
          }
        }
        match rest
        case Failure(e) => Failure(e)
        case Success(ts) => Success([p] + ts)
  }

  /** Every descriptor title-cases without throwing when `toTitleCase` never throws. */
  lemma TitleCaseAllTotal(ps: seq<Parameter>, toTitleCase: TitleCaser)
    requires forall text, sep :: toTitleCase(text, sep).Success?
    ensures TitleCaseAll(ps, toTitleCase).Success?
    ensures |TitleCaseAll(ps, toTitleCase).value| == |ps|
  {
    assert forall i :: 0 <= i < |ps| ==> TitleCased(ps[i], toTitleCase).Success?;
  }

  /** A `status` that says the spec has been pulled: present, non-empty and not `pending`. */
  predicate Finished(status: Option<string>) {
    Truthy(status) && status.value != "pending"
  }

  /** The error a thrown value turns into, or the value a finished answer maps to. */
  function Loaded(mapped: Call0<seq<Parameter>>, toTitleCase: TitleCaser): (r: Outcome<seq<Parameter>>)
    ensures mapped.Failure? ==> r == Thrown(mapped.error)
    ensures mapped.Success? && TitleCaseAll(mapped.value, toTitleCase).Failure? ==>
      r == Thrown(TitleCaseAll(mapped.value, toTitleCase).error)
    ensures mapped.Success? && TitleCaseAll(mapped.value, toTitleCase).Success? ==>
      r == Returned(Some(TitleCaseAll(mapped.value, toTitleCase).value))
  {
    match mapped
    case Failure(e) => Thrown(e)
    case Success(ps) =>
      match TitleCaseAll(ps, toTitleCase)
      case Failure(e) => Thrown(e)
      case Success(ts) => Returned(Some(ts))
  }

  /**
   * What `pullAirbyteSpec` makes of the backend's answer: a truthy message
   * is thrown; a finished status maps the specification and title-cases every
   * display name, and an error either of them throws is thrown on; any other
   * answer gives `undefined`.
   */
  function Classify<S>(response: Option<Response<S>>, mapSpec: Mapper<S>, toTitleCase: TitleCaser)
    : (r: Outcome<seq<Parameter>>)
    ensures response.Some? && Truthy(response.value.message) ==> r == Thrown(response.value.message.value)
    ensures r == Returned(None) <==>
      response.None? || (!Truthy(response.value.message) && !Finished(response.value.status))
    ensures response.Some? && !Truthy(response.value.message) && Finished(response.value.status) ==>
      var mapped := mapSpec(response.value.connectionSpecification);
      && (mapped.Failure? ==> r == Thrown(mapped.error))
      && (mapped.Success? ==> r.Returned? == TitleCaseAll(mapped.value, toTitleCase).Success?)
      && (mapped.Success? && TitleCaseAll(mapped.value, toTitleCase).Failure? ==>
            r == Thrown(TitleCaseAll(mapped.value, toTitleCase).error))
    ensures r.Returned? && r.value.Some? ==>
      var mapped := mapSpec(response.value.connectionSpecification);
      && mapped.Success?
      && |r.value.value| == |mapped.value|
      && forall i :: 0 <= i < |mapped.value| ==> TitleCased(mapped.value[i], toTitleCase) == Success(r.value.value[i])
  {
    if response.None? then Returned(None)
    else
      var resp := response.value;
      if Truthy(resp.message) then Thrown(resp.message.value)
      else if Finished(resp.status) then Loaded(mapSpec(resp.connectionSpecification), toTitleCase)
      else Returned(None)
  }

  /** A message wins over any status. */
  lemma MessageWins<S>(message: string, status: Option<string>, spec: Option<S>,
                       mapSpec: Mapper<S>, toTitleCase: TitleCaser)
    requires message != ""
    ensures Classify(Some(Response(Some(message), status, spec)), mapSpec, toTitleCase) == Thrown(message)
  {
  }

  /**
   * A finished answer whose mapping and title-casing do not throw keeps the
   * descriptors, their order and every field but the display name.
   */
  lemma LoadedKeepsDescriptors<S>(response: Response<S>, mapSpec: Mapper<S>, toTitleCase: TitleCaser)
    requires !Truthy(response.message) && Finished(response.status)
    requires mapSpec(response.connectionSpecification).Success?
    requires forall text, sep :: toTitleCase(text, sep).Success?
    ensures var r, mapped := Classify(Some(response), mapSpec, toTitleCase), mapSpec(response.connectionSpecification).value;
      && r.Returned? && r.value.Some?
      && |r.value.value| == |mapped|
      && (forall i :: 0 <= i < |mapped| ==> r.value.value[i].(displayName := mapped[i].displayName) == mapped[i])
  {
    var mapped := mapSpec(response.connectionSpecification).value;
    TitleCaseAllTotal(mapped, toTitleCase);
    var r := Classify(Some(response), mapSpec, toTitleCase);
    forall i | 0 <= i < |mapped|
      ensures r.value.value[i].(displayName := mapped[i].displayName) == mapped[i]
    {
      assert TitleCased(mapped[i], toTitleCase) == Success(r.value.value[i]);
    }
  }

  /** The services `pullAirbyteSpec` uses: the active project and the backend's `get`. */
  datatype Services<S> = Services(projectId: string, get: string -> Outcome<Response<S>>)

  /** `pullAirbyteSpec`: a rejected request rejects; an answer is classified. */
  function PullAirbyteSpec<S>(services: Services<S>, sourceId: string, mapSpec: Mapper<S>,
                              toTitleCase: TitleCaser): (r: Outcome<seq<Parameter>>)
    ensures var answer := services.get(SpecPath(sourceId, services.projectId));
      && (answer.Thrown? ==> r == Thrown(answer.error))
      && (answer.Returned? ==> r == Classify(answer.value, mapSpec, toTitleCase))
  {
    match services.get(SpecPath(sourceId, services.projectId))
    case Thrown(e) => Thrown(e)
    case Returned(response) => Classify(response, mapSpec, toTitleCase)
  }

  /** Mapping the answer's specification, or title-casing one of its display names, throws. */
  predicate MappingThrows<S>(response: Response<S>, mapSpec: Mapper<S>, toTitleCase: TitleCaser) {
    var mapped := mapSpec(response.connectionSpecification);
    mapped.Failure? || TitleCaseAll(mapped.value, toTitleCase).Failure?
  }

  /**
   * The loader throws exactly when the request rejects, the answer carries a
   * message, or a finished answer's mapping throws.
   */
  lemma PullAirbyteSpecThrowsOnlyOnErrors<S>(services: Services<S>, sourceId: string,
                                            mapSpec: Mapper<S>, toTitleCase: TitleCaser)
    ensures var answer := services.get(SpecPath(sourceId, services.projectId));
      PullAirbyteSpec(services, sourceId, mapSpec, toTitleCase).Thrown? <==>
        || answer.Thrown?
        || (answer.value.Some? && Truthy(answer.value.value.message))
        || (answer.value.Some? && Finished(answer.value.value.status)
            && MappingThrows(answer.value.value, mapSpec, toTitleCase))
  {
  }

  /** With a mapper and a title-caser that never throw, an answer throws only for its message. */
  lemma ClassifyTotalMapping<S>(response: Option<Response<S>>, mapSpec: Mapper<S>, toTitleCase: TitleCaser)
    requires forall spec: Option<S> :: mapSpec(spec).Success?
    requires forall text, sep :: toTitleCase(text, sep).Success?
    ensures Classify(response, mapSpec, toTitleCase).Thrown? <==> response.Some? && Truthy(response.value.message)
  {
    if response.Some? {
      var mapped := mapSpec(response.value.connectionSpecification);
      TitleCaseAllTotal(mapped.value, toTitleCase);
    }
  }

  /** With a mapper and a title-caser that never throw, only a rejection or a message throws. */
  lemma PullAirbyteSpecTotalMapping<S>(services: Services<S>, sourceId: string,
                                      mapSpec: Mapper<S>, toTitleCase: TitleCaser)
    requires forall spec: Option<S> :: mapSpec(spec).Success?
    requires forall text, sep :: toTitleCase(text, sep).Success?
    ensures var answer := services.get(SpecPath(sourceId, services.projectId));
      PullAirbyteSpec(services, sourceId, mapSpec, toTitleCase).Thrown? <==>
        answer.Thrown? || (answer.value.Some? && Truthy(answer.value.value.message))
  {
    var answer := services.get(SpecPath(sourceId, services.projectId));
    if answer.Returned? {
      ClassifyTotalMapping(answer.value, mapSpec, toTitleCase);
    }
  }

  // ---------------------------------------------------------------------
  // Rendering
  // ---------------------------------------------------------------------

  /** What `usePolling` reports: `isLoading`, `data` and `error` (its stack trace). */
  datatype PollingState = PollingState(isLoading: bool, data: Option<seq<Parameter>>, error: Option<string>)

  const ErrorTitle := "Failed to load the source specification data"
  const LoadingTitle := "Loading the source configuration"
  const LongLoadingAfterMs := 5000

  datatype View =
    | ErrorCard(title: string, stackTrace: string)
    | LoadingCard(title: string, longLoadingAfterMs: nat)
    | FieldsForm(fields: seq<Parameter>)

  /** The component's render: an error beats loading, and loading beats the form. */
  function Render(state: PollingState): (v: View)
    ensures v.ErrorCard? <==> state.error.Some?
    ensures v.LoadingCard? <==> state.error.None? && state.isLoading
    ensures v.FieldsForm? <==> state.error.None? && !state.isLoading
    ensures v.ErrorCard? ==> v == ErrorCard(ErrorTitle, state.error.value)
    ensures v.LoadingCard? ==> v == LoadingCard(LoadingTitle, LongLoadingAfterMs)
    ensures v.FieldsForm? ==> v.fields == (if state.data.Some? then state.data.value else [])
  {
    if state.error.Some? then ErrorCard(ErrorTitle, state.error.value)
    else if state.isLoading then LoadingCard(LoadingTitle, LongLoadingAfterMs)
    else FieldsForm(state.data.GetOr([]))
  }

  /** The form shows exactly the loaded descriptors, and no descriptor when none were loaded. */
  lemma RenderedFields(state: PollingState)
    requires state.error.None? && !state.isLoading
    ensures state.data.Some? ==> Render(state) == FieldsForm(state.data.value)
    ensures state.data.None? ==> Render(state) == FieldsForm([])
  {
  }

  // ---------------------------------------------------------------------
  // Effects on the owner: the polling attempt and the patch handlers
  // ---------------------------------------------------------------------

  /** A primitive form value. */
  datatype Primitive = PString(s: string) | PNumber(n: int) | PBool(b: bool) | PNull

  datatype PatchOptions = PatchOptions(doNotSetStateChanged: bool)

  /** A call the component makes on its owner or on the polling controller. */
  datatype Call =
    | SetControlsDisabled(disabled: bool)
    | End(result: Option<seq<Parameter>>)
    | Fail(error: string)
    | PatchConfig(values: map<string, Primitive>, options: Option<PatchOptions>)

  /** The calls one attempt makes once `pullAirbyteSpec` has settled with `outcome`. */
  function AttemptCalls(outcome: Outcome<seq<Parameter>>): seq<Call> {
    [SetControlsDisabled(true)]
    + (if outcome.Thrown? then [Fail(outcome.error)] else [End(outcome.value)])
    + [SetControlsDisabled(false)]
  }

  function CountEnds(calls: seq<Call>): nat {
    if calls == [] then 0 else (if calls[0].End? then 1 else 0) + CountEnds(calls[1..])
  }

  function CountFails(calls: seq<Call>): nat {
    if calls == [] then 0 else (if calls[0].Fail? then 1 else 0) + CountFails(calls[1..])
  }

  /**
   * An attempt opens with disabling the controls and closes with enabling
   * them, whatever the outcome, and reports to exactly one of `end` and `fail`:
   * to `fail` exactly when the fetch threw.
   */
  lemma AttemptBracketed(outcome: Outcome<seq<Parameter>>)
    ensures var calls := AttemptCalls(outcome);
      && |calls| == 3
      && calls[0] == SetControlsDisabled(true)
      && calls[|calls| - 1] == SetControlsDisabled(false)
      && CountEnds(calls) + CountFails(calls) == 1
      && (CountFails(calls) == 1 <==> outcome.Thrown?)
  {
    var calls := AttemptCalls(outcome);
    var last := calls[1..][1..];
    assert last == [SetControlsDisabled(false)] && last[1..] == [];
    assert CountEnds(last) == 0 && CountFails(last) == 0;
  }

  /** A pending answer ends the attempt with `undefined`. */
  lemma PendingEndsWithUndefined(outcome: Outcome<seq<Parameter>>)
    requires outcome == Returned(None)
    ensures AttemptCalls(outcome)[1] == End(None)
  {
  }

  /** The component's owner, as far as the component calls it: the calls made so far, in order. */
  class Owner {
    var calls: seq<Call>

    constructor ()
      ensures calls == []
    {
      calls := [];
    }

    method SetControlsDisabledCall(disabled: bool)
      modifies this
      ensures calls == old(calls) + [SetControlsDisabled(disabled)]
    {
      calls := calls + [SetControlsDisabled(disabled)];
    }

    /** One polling attempt: disable, fetch, `end` or `fail`, and finally enable. */
    method Attempt<S>(services: Services<S>, sourceId: string, mapSpec: Mapper<S>, toTitleCase: TitleCaser)
      modifies this
      ensures calls == old(calls) + AttemptCalls(PullAirbyteSpec(services, sourceId, mapSpec, toTitleCase))
    {
      SetControlsDisabledCall(true);
      var result := PullAirbyteSpec(services, sourceId, mapSpec, toTitleCase);
      if result.Thrown? {
        calls := calls + [Fail(result.error)];
      } else {
        calls := calls + [End(result.value)];
      }
      SetControlsDisabledCall(false);
    }

    /** `handleFormValuesChange`: the whole value map, without options. */
    method HandleFormValuesChange(changed: map<string, Primitive>, values: map<string, Primitive>)
      modifies this
      ensures calls == old(calls) + [PatchConfig(values, None)]
    {
      calls := calls + [PatchConfig(values, None)];
    }

    /** `handleSetInitialFormValues`: the values, marked as not changing the editor's state. */
    method HandleSetInitialFormValues(values: map<string, Primitive>)
      modifies this
      ensures calls == old(calls) + [PatchConfig(values, Some(PatchOptions(true)))]
    {
      calls := calls + [PatchConfig(values, Some(PatchOptions(true)))];
    }
  }

  // ---------------------------------------------------------------------
  // The validator
  // ---------------------------------------------------------------------

  /** A JavaScript number as far as the count needs it. */
  datatype JsNumber = Finite(n: int) | NaN

  /**
   * How `form.validateFields()` settles: it resolves, or it rejects with a
   * value that has an `errorFields` array (of the invalid field names), or
   * with one that has none.
   */
  datatype Validation = Resolved | RejectedWithFields(errorFields: seq<string>) | RejectedOther

  /** `validateGetErrorsCount`: it computes the count `ErrorsCount` specifies. */
  method ValidateGetErrorsCount(validation: Validation) returns (errorsCount: JsNumber)
    ensures errorsCount == ErrorsCount(validation)
  {
    errorsCount := Finite(0);
    if !validation.Resolved? {
      // `+error?.errorFields?.length`: `+undefined` is NaN.
      errorsCount := if validation.RejectedWithFields? then Finite(|validation.errorFields|) else NaN;
    }
  }

  /** The names of the fields `valid` rejects, in form order. */
  function InvalidFields(fields: seq<string>, valid: string -> bool): (r: seq<string>)
    ensures |r| <= |fields|
    ensures forall x :: x in r <==> x in fields && !valid(x)
  {
    if fields == [] then []
    else (if valid(fields[0]) then [] else [fields[0]]) + InvalidFields(fields[1..], valid)
  }

  /**
   * How antd's `validateFields` is assumed to settle on a form whose fields
   * `valid` judges: it resolves when every field is valid, and otherwise rejects
   * with one `errorFields` entry per invalid field, in form order. antd is not
   * part of this model.
   */
  function AntdValidate(fields: seq<string>, valid: string -> bool): Validation {
    var invalid := InvalidFields(fields, valid);
    if invalid == [] then Resolved else RejectedWithFields(invalid)
  }

  /**
   * The count a validation outcome gives: 0 when it resolves, the length of
   * `errorFields` when it rejects with one, NaN otherwise. This is the
   * specification `ValidateGetErrorsCount` meets.
   */
  function ErrorsCount(validation: Validation): JsNumber {
    match validation
    case Resolved => Finite(0)
    case RejectedWithFields(errorFields) => Finite(|errorFields|)
    case RejectedOther => NaN
  }

  /**
   * On a form validated the way antd does it, the count is the number of
   * invalid fields, and it is 0 exactly when every field is valid.
   */
  lemma {:induction false} CountIsInvalidFields(fields: seq<string>, valid: string -> bool)
    ensures ErrorsCount(AntdValidate(fields, valid)) == Finite(|InvalidFields(fields, valid)|)
    ensures ErrorsCount(AntdValidate(fields, valid)) == Finite(0) <==> forall x :: x in fields ==> valid(x)
  {
    var invalid := InvalidFields(fields, valid);
    if invalid != [] {
      assert invalid[0] in fields && !valid(invalid[0]);
    }
  }

  /** `n` fields all invalid give `n`. */
  lemma {:induction false} AllInvalidCountsAll(fields: seq<string>, valid: string -> bool)
    requires forall x :: x in fields ==> !valid(x)
    ensures ErrorsCount(AntdValidate(fields, valid)) == Finite(|fields|)
  {
    AllInvalidKept(fields, valid);
  }

  lemma {:induction false} AllInvalidKept(fields: seq<string>, valid: string -> bool)
    requires forall x :: x in fields ==> !valid(x)
    ensures InvalidFields(fields, valid) == fields
  {
    if fields != [] {
      assert forall x :: x in fields[1..] ==> x in fields;
      AllInvalidKept(fields[1..], valid);
    }
  }
}

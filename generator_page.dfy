/** `frontend/src/pages/GeneratorPage.jsx`: the six-step workflow. The page
    state is the value `PageState`; every handler the page runs, directly or
    through a child form, is an `Event`, and `Next` is its effect. Class
    `GeneratorPage` keeps the same state in fields that its methods update,
    each proved to have the effect `Next` gives. */
module Workflow {
  import opened Common
  import opened Schemas
  import RequirementForm
  import InputDefinition
  import OutputDefinition
  import Selection

  /** `STEPS`, the labels of the stepper; `currentStep` indexes them. */
  const Steps: seq<string> := ["Requirement", "Inputs", "Outputs", "Interpretation", "Test Cases", "Export"]

  /** How `generateTestCases` settled: the response body, or the message of
      the error it threw. */
  datatype ApiOutcome = Resolved(response: GenerateResponse) | Rejected(message: string)

  const FailedMessage := "Failed to generate test cases"

  /** `err.message || 'Failed to generate test cases'` */
  function ErrorText(message: string): (r: string)
    ensures r != ""
    ensures message != "" ==> r == message
  {
    if message == "" then FailedMessage else message
  }

  datatype PageState = PageState(
    currentStep: nat,
    loading: bool,
    error: Option<string>,
    formData: RequirementForm.FormData,
    inputs: seq<InputDef>,
    outputs: seq<OutputDef>,
    interpretation: Option<InterpretationResult>,
    testCases: seq<TestCase>,
    selectedTestCases: seq<string>,
    coverageReport: Option<CoverageReport>,
    traceabilityMatrix: Option<TraceabilityMatrix>)

  /** The `useState` initial values. */
  function Initial(): PageState
  {
    PageState(0, false, None, RequirementForm.FormData("", "", ""), [], [], None, [], [], None, None)
  }

  /** Two states hold the same entered and generated data. */
  predicate SameData(s: PageState, t: PageState)
  {
    && s.formData == t.formData
    && s.inputs == t.inputs
    && s.outputs == t.outputs
    && s.interpretation == t.interpretation
    && s.testCases == t.testCases
    && s.selectedTestCases == t.selectedTestCases
    && s.coverageReport == t.coverageReport
    && s.traceabilityMatrix == t.traceabilityMatrix
  }

  /** The request body sent to the backend. */
  function Request(s: PageState): GenerateRequest
  {
    GenerateRequest(s.formData.requirementId, s.formData.requirementText, s.inputs, s.outputs,
                    s.formData.geminiApiKey)
  }

  /** `updateFormData(field, value)`: `{...formData, [field]: value}`. */
  function UpdateField(f: RequirementForm.FormData, field: RequirementForm.FormField, value: string)
    : (r: RequirementForm.FormData)
    ensures RequirementForm.Read(r, field) == value
    ensures forall g :: g != field ==> RequirementForm.Read(r, g) == RequirementForm.Read(f, g)
  {
    match field
    case RequirementId => f.(requirementId := value)
    case RequirementText => f.(requirementText := value)
    case GeminiApiKey => f.(geminiApiKey := value)
  }

  /** `goToStep(step)` */
  function GoToStep(s: PageState, step: nat): PageState
  {
    s.(currentStep := step, error := None)
  }

  /** The first two statements of `handleGenerateInterpretation`. */
  function Started(s: PageState): PageState
  {
    s.(loading := true, error := None)
  }

  /** The rest of `handleGenerateInterpretation`: the success path stores the
      four results together, selects every test case and moves to step 3;
      the failure path records the message; both end with `loading` off. */
  function Finished(s: PageState, outcome: ApiOutcome): PageState
  {
    match outcome
    case Resolved(resp) =>
      GoToStep(s.(interpretation := Some(resp.interpretation),
                  testCases := resp.testCases,
                  selectedTestCases := TcIds(resp.testCases),
                  coverageReport := Some(resp.coverageReport),
                  traceabilityMatrix := Some(resp.traceabilityMatrix)), 3).(loading := false)
    case Rejected(message) =>
      s.(error := Some(ErrorText(message)), loading := false)
  }

  function Generated(s: PageState, outcome: ApiOutcome): PageState
  {
    Finished(Started(s), outcome)
  }

  /** The handlers. `SubmitRequirement`, `InputsNext` and `OutputsNext` are
      the child forms' guarded "continue" buttons; `OutputsNext` carries what
      the backend call settles with. `Navigate` is any button that only calls
      `goToStep`. `SetInputs`/`SetOutputs` are the lists the child forms hand
      to the page's setters. `NewGeneration` is the confirmed page reload. */
  datatype Event =
    | UpdateFormData(field: RequirementForm.FormField, value: string)
    | SubmitRequirement
    | SetInputs(newInputs: seq<InputDef>)
    | InputsNext
    | SetOutputs(newOutputs: seq<OutputDef>)
    | OutputsNext(outcome: ApiOutcome)
    | GenerateTestCases
    | ToggleTestCase(tcId: string)
    | ToggleAll
    | Navigate(step: nat)
    | DismissError
    | NewGeneration

  function Next(s: PageState, e: Event): PageState
  {
    match e
    case UpdateFormData(field, value) => s.(formData := UpdateField(s.formData, field, value))
    case SubmitRequirement =>
      if RequirementForm.HandleSubmit(s.formData) == Proceed then GoToStep(s, 1) else s
    case SetInputs(xs) => s.(inputs := xs)
    case InputsNext =>
      if InputDefinition.HandleNext(s.inputs) == Proceed then GoToStep(s, 2) else s
    case SetOutputs(xs) => s.(outputs := xs)
    case OutputsNext(outcome) =>
      if OutputDefinition.HandleNext(s.outputs) == Proceed then Generated(s, outcome) else s
    case GenerateTestCases =>
      // the source reads `interpretation.interpretation_status` unguarded; the
      // button exists only while an interpretation is shown
      if s.interpretation.Some? && s.interpretation.value.status == OK then GoToStep(s, 4) else s
    case ToggleTestCase(id) => s.(selectedTestCases := Selection.Toggle(s.selectedTestCases, id))
    case ToggleAll => s.(selectedTestCases := Selection.ToggleAll(s.selectedTestCases, s.testCases))
    case Navigate(step) => GoToStep(s, step)
    case DismissError => s.(error := None)
    case NewGeneration => Initial()
  }

  /** The navigation buttons `renderStepContent` shows on each step: back
      from every step, forward from step 4 only. */
  predicate NavigationShown(s: PageState, step: nat)
  {
    || (s.currentStep == 1 && step == 0)
    || (s.currentStep == 2 && step == 1)
    || (s.currentStep == 3 && s.interpretation.Some? && step == 2)
    || (s.currentStep == 4 && |s.testCases| > 0 && (step == 3 || step == 5))
    || (s.currentStep == 5 && s.coverageReport.Some? && s.traceabilityMatrix.Some? && step == 4)
  }

  /** Which handlers the rendered page offers in a state. */
  predicate Enabled(s: PageState, e: Event)
  {
    match e
    case UpdateFormData(_, _) => s.currentStep == 0
    case SubmitRequirement => s.currentStep == 0
    case SetInputs(_) => s.currentStep == 1
    case InputsNext => s.currentStep == 1
    case SetOutputs(_) => s.currentStep == 2
    case OutputsNext(_) => s.currentStep == 2
    case GenerateTestCases => s.currentStep == 3 && s.interpretation.Some?
    case ToggleTestCase(id) => s.currentStep == 4 && id in TcIds(s.testCases)
    case ToggleAll => s.currentStep == 4 && |s.testCases| > 0
    case Navigate(step) => NavigationShown(s, step)
    case DismissError => s.error.Some?
    case NewGeneration => s.currentStep == 5 && s.coverageReport.Some? && s.traceabilityMatrix.Some?
  }

  /** What holds of every state the page can reach: a step within the six,
      no generation pending between handlers, every later step reached only
      through the guards before it (filled form, some inputs, some outputs, an
      interpretation, and an OK one past step 3), the four results stored
      together, and a selection drawn from the listed test cases. */
  predicate Inv(s: PageState)
  {
    && s.currentStep < |Steps|
    && !s.loading
    && (s.currentStep >= 1 ==> RequirementForm.HandleSubmit(s.formData) == Proceed)
    && (s.currentStep >= 2 ==> |s.inputs| > 0)
    && (s.currentStep >= 3 ==> |s.outputs| > 0 && s.interpretation.Some?)
    && (s.currentStep >= 4 ==> s.interpretation.Some? && s.interpretation.value.status == OK)
    && s.interpretation.Some? == s.coverageReport.Some?
    && s.interpretation.Some? == s.traceabilityMatrix.Some?
    && (forall x :: x in s.selectedTestCases ==> x in TcIds(s.testCases))
    && (NoDuplicates(TcIds(s.testCases)) ==> NoDuplicates(s.selectedTestCases))
  }

  // ---------------------------------------------------------------------
  // Properties of the workflow
  // ---------------------------------------------------------------------

  /** The page starts on the first of six steps with nothing entered. */
  lemma InitialState()
    ensures |Steps| == 6
    ensures Inv(Initial())
    ensures Initial().currentStep == 0 && !Initial().loading && Initial().error.None?
    ensures Initial().inputs == [] && Initial().outputs == [] && Initial().testCases == []
    ensures Initial().selectedTestCases == [] && Initial().interpretation.None?
    ensures Initial().coverageReport.None? && Initial().traceabilityMatrix.None?
  {
  }

  lemma ToggleKeepsInv(s: PageState, id: string)
    requires Inv(s) && Enabled(s, ToggleTestCase(id))
    ensures Inv(Next(s, ToggleTestCase(id)))
  {
    Selection.TogglesStayListed(s.selectedTestCases, id, s.testCases);
    if NoDuplicates(TcIds(s.testCases)) {
      Selection.ToggleKeepsDistinct(s.selectedTestCases, id);
    }
  }

  lemma ToggleAllKeepsInv(s: PageState)
    requires Inv(s) && Enabled(s, ToggleAll)
    ensures Inv(Next(s, ToggleAll))
  {
    var r := Selection.ToggleAll(s.selectedTestCases, s.testCases);
    assert forall x :: x in r ==> x in TcIds(s.testCases);
  }

  lemma GenerationKeepsInv(s: PageState, outcome: ApiOutcome)
    requires Inv(s) && Enabled(s, OutputsNext(outcome))
    ensures Inv(Next(s, OutputsNext(outcome)))
  {
  }

  /** Every handler the page offers keeps the invariant. */
  lemma NextKeepsInv(s: PageState, e: Event)
    requires Inv(s) && Enabled(s, e)
    ensures Inv(Next(s, e))
  {
    match e
    case ToggleTestCase(id) => ToggleKeepsInv(s, id);
    case ToggleAll => ToggleAllKeepsInv(s);
    case OutputsNext(outcome) => GenerationKeepsInv(s, outcome);
    case _ =>
  }

  /** The state after a sequence of handlers. */
  function Run(s: PageState, es: seq<Event>): PageState
    decreases |es|
  {
    if es == [] then s else Run(Next(s, es[0]), es[1..])
  }

  /** Each handler of the sequence is offered when it runs. */
  predicate Offered(s: PageState, es: seq<Event>)
    decreases |es|
  {
    es == [] || (Enabled(s, es[0]) && Offered(Next(s, es[0]), es[1..]))
  }

  lemma {:induction false} RunKeepsInv(s: PageState, es: seq<Event>)
    requires Inv(s) && Offered(s, es)
    ensures Inv(Run(s, es))
    decreases |es|
  {
    if es != [] {
      NextKeepsInv(s, es[0]);
      RunKeepsInv(Next(s, es[0]), es[1..]);
    }
  }

  /** Whatever the user does, the test-case and export steps are reached only
      with an OK interpretation, and only after a filled form, some inputs
      and some outputs. */
  lemma Reachable(es: seq<Event>)
    requires Offered(Initial(), es)
    ensures var s := Run(Initial(), es);
      && Inv(s)
      && (s.currentStep >= 4 ==> s.interpretation.Some? && s.interpretation.value.status == OK)
  {
    InitialState();
    RunKeepsInv(Initial(), es);
  }

  /** The ambiguity gate: a BLOCKED interpretation changes nothing... */
  lemma GateHoldsBlocked(s: PageState)
    requires s.interpretation.Some? && s.interpretation.value.status == BLOCKED
    ensures Next(s, GenerateTestCases) == s
  {
  }

  /** ...and an OK one moves to step 4, clearing the error and keeping the data. */
  lemma GateOpensOk(s: PageState)
    requires s.interpretation.Some? && s.interpretation.value.status == OK
    ensures var t := Next(s, GenerateTestCases);
      t.currentStep == 4 && t.error.None? && t.loading == s.loading && SameData(t, s)
  {
  }

  /** Navigation only moves the step and clears the error: nothing entered or
      generated is lost. The guarded "continue" handlers either do the same
      or change nothing. Every shown back button goes one step back. */
  lemma NavigationKeepsData(s: PageState, e: Event)
    requires e.Navigate? || e == SubmitRequirement || e == InputsNext || e == GenerateTestCases
    ensures SameData(Next(s, e), s) && Next(s, e).loading == s.loading
    ensures Next(s, e).currentStep != s.currentStep ==> Next(s, e).error.None?
    ensures e.Navigate? ==> Next(s, e).currentStep == e.step && Next(s, e).error.None?
    ensures e.Navigate? && NavigationShown(s, e.step) ==>
      e.step == s.currentStep - 1 || (s.currentStep == 4 && e.step == 5)
  {
  }

  /** The first step is left exactly when the form passes its guard. */
  lemma SubmitAdvancesIffFilled(s: PageState)
    requires s.currentStep == 0
    ensures Next(s, SubmitRequirement).currentStep == 1 <==>
      forall field :: RequirementForm.Read(s.formData, field) != ""
    ensures Next(s, SubmitRequirement).currentStep != 1 ==> Next(s, SubmitRequirement) == s
  {
  }

  /** The inputs step is left exactly when there is at least one input. */
  lemma InputsNextIffNonEmpty(s: PageState)
    requires s.currentStep == 1
    ensures Next(s, InputsNext).currentStep == 2 <==> |s.inputs| > 0
    ensures |s.inputs| == 0 ==> Next(s, InputsNext) == s
  {
  }

  /** A successful generation stores the four results of one response
      together, selects all its test cases in order and moves to step 3;
      what the user entered stays as it was. */
  lemma GenerationStoresAll(s: PageState, resp: GenerateResponse)
    requires |s.outputs| > 0
    ensures var t := Next(s, OutputsNext(Resolved(resp)));
      && t.interpretation == Some(resp.interpretation)
      && t.testCases == resp.testCases
      && t.selectedTestCases == TcIds(resp.testCases)
      && t.coverageReport == Some(resp.coverageReport)
      && t.traceabilityMatrix == Some(resp.traceabilityMatrix)
      && t.currentStep == 3 && t.error.None? && !t.loading
      && t.formData == s.formData && t.inputs == s.inputs && t.outputs == s.outputs
  {
  }

  /** A failed generation records a non-empty message and changes neither
      the step nor any data. */
  lemma GenerationFailureKeeps(s: PageState, message: string)
    requires |s.outputs| > 0
    ensures var t := Next(s, OutputsNext(Rejected(message)));
      && t.error == Some(ErrorText(message)) && t.error.value != ""
      && t.currentStep == s.currentStep && SameData(t, s) && !t.loading
  {
  }

  /** Without outputs the generation is not started at all. */
  lemma NoOutputsNoCall(s: PageState, outcome: ApiOutcome)
    requires |s.outputs| == 0
    ensures Next(s, OutputsNext(outcome)) == s
  {
  }

  /** `loading` is on while the call is pending and off once it settled,
      whichever way. */
  lemma LoadingAroundCall(s: PageState, outcome: ApiOutcome)
    ensures Started(s).loading && Started(s).error.None?
    ensures !Generated(s, outcome).loading
  {
  }

  // ---------------------------------------------------------------------
  // The page component
  // ---------------------------------------------------------------------

  class GeneratorPage {
    var currentStep: nat
    var loading: bool
    var error: Option<string>
    var formData: RequirementForm.FormData
    var inputs: seq<InputDef>
    var outputs: seq<OutputDef>
    var interpretation: Option<InterpretationResult>
    var testCases: seq<TestCase>
    var selectedTestCases: seq<string>
    var coverageReport: Option<CoverageReport>
    var traceabilityMatrix: Option<TraceabilityMatrix>

    function State(): PageState
      reads this
    {
      PageState(currentStep, loading, error, formData, inputs, outputs, interpretation, testCases,
                selectedTestCases, coverageReport, traceabilityMatrix)
    }

    constructor()
      ensures State() == Initial()
    {
      currentStep := 0;
      loading := false;
      error := None;
      formData := RequirementForm.FormData("", "", "");
      inputs := [];
      outputs := [];
      interpretation := None;
      testCases := [];
      selectedTestCases := [];
      coverageReport := None;
      traceabilityMatrix := None;
    }

    method UpdateFormData(field: RequirementForm.FormField, value: string)
      modifies this
      ensures State() == Next(old(State()), Event.UpdateFormData(field, value))
    {
      formData := UpdateField(formData, field, value);
    }

    method GoToStep(step: nat)
      modifies this
      ensures State() == Next(old(State()), Event.Navigate(step))
    {
      currentStep := step;
      error := None;
    }

    /** The requirement form's submit, whose `onNext` is `goToStep(1)`. */
    method SubmitRequirement()
      modifies this
      ensures State() == Next(old(State()), Event.SubmitRequirement)
    {
      var guard := RequirementForm.HandleSubmit(formData);
      if guard == Proceed {
        GoToStep(1);
      }
    }

    method SetInputs(xs: seq<InputDef>)
      modifies this
      ensures State() == Next(old(State()), Event.SetInputs(xs))
    {
      inputs := xs;
    }

    /** The input form's add button, wired to `setInputs`. */
    method AddInput(form: InputDefinition.InputForm, parseFloat: InputDefinition.ParseFloat)
      modifies this, form
      ensures InputDefinition.Addable(old(form.draft)) ==>
        State() == Next(old(State()), Event.SetInputs(old(inputs) + [InputDefinition.NewInput(old(form.draft), parseFloat)]))
      ensures !InputDefinition.Addable(old(form.draft)) ==> State() == old(State())
    {
      var update := form.AddInput(inputs, parseFloat);
      if update.Some? {
        SetInputs(update.value);
      }
    }

    /** The remove button of the input at `index`. */
    method RemoveInput(index: int)
      modifies this
      ensures State() == Next(old(State()), Event.SetInputs(RemoveAt(old(inputs), index)))
    {
      SetInputs(RemoveAt(inputs, index));
    }

    /** The input form's continue button, whose `onNext` is `goToStep(2)`. */
    method InputsNext()
      modifies this
      ensures State() == Next(old(State()), Event.InputsNext)
    {
      var guard := InputDefinition.HandleNext(inputs);
      if guard == Proceed {
        GoToStep(2);
      }
    }

    method SetOutputs(xs: seq<OutputDef>)
      modifies this
      ensures State() == Next(old(State()), Event.SetOutputs(xs))
    {
      outputs := xs;
    }

    method AddOutput(form: OutputDefinition.OutputForm)
      modifies this, form
      ensures OutputDefinition.Addable(old(form.draft)) ==>
        State() == Next(old(State()), Event.SetOutputs(old(outputs) + [OutputDefinition.NewOutput(old(form.draft))]))
      ensures !OutputDefinition.Addable(old(form.draft)) ==> State() == old(State())
    {
      var update := form.AddOutput(outputs);
      if update.Some? {
        SetOutputs(update.value);
      }
    }

    method RemoveOutput(index: int)
      modifies this
      ensures State() == Next(old(State()), Event.SetOutputs(RemoveAt(old(outputs), index)))
    {
      SetOutputs(RemoveAt(outputs, index));
    }

    /** The first half of `handleGenerateInterpretation`, up to the call. */
    method StartGeneration() returns (request: GenerateRequest)
      modifies this
      ensures State() == Started(old(State()))
      ensures request == Request(old(State()))
    {
      loading := true;
      error := None;
      request := GenerateRequest(formData.requirementId, formData.requirementText, inputs, outputs,
                                 formData.geminiApiKey);
    }

    /** The second half, once the call settled. */
    method FinishGeneration(outcome: ApiOutcome)
      modifies this
      ensures State() == Finished(old(State()), outcome)
    {
      match outcome {
        case Resolved(response) =>
          interpretation := Some(response.interpretation);
          testCases := response.testCases;
          selectedTestCases := TcIds(response.testCases);
          coverageReport := Some(response.coverageReport);
          traceabilityMatrix := Some(response.traceabilityMatrix);
          GoToStep(3);
          loading := false;
        case Rejected(message) =>
          error := Some(if message == "" then FailedMessage else message);
          loading := false;
      }
    }

    /** `handleGenerateInterpretation`, with the backend call as `api`. */
    method HandleGenerateInterpretation(api: GenerateRequest -> ApiOutcome)
      modifies this
      ensures State() == Generated(old(State()), api(Request(old(State()))))
    {
      var request := StartGeneration();
      var outcome := api(request);
      FinishGeneration(outcome);
    }

    /** The output form's continue button, whose `onNext` is the generation. */
    method OutputsNext(api: GenerateRequest -> ApiOutcome)
      modifies this
      ensures State() == Next(old(State()), Event.OutputsNext(api(Request(old(State())))))
    {
      var guard := OutputDefinition.HandleNext(outputs);
      if guard == Proceed {
        HandleGenerateInterpretation(api);
      }
    }

    /** `handleGenerateTestCases`, the ambiguity gate. */
    method HandleGenerateTestCases()
      modifies this
      ensures State() == Next(old(State()), Event.GenerateTestCases)
    {
      if interpretation.Some? && interpretation.value.status == OK {
        GoToStep(4);
      }
    }

    /** A row click of the table, through `setSelectedTestCases`. */
    method ToggleTestCase(tcId: string)
      modifies this
      ensures State() == Next(old(State()), Event.ToggleTestCase(tcId))
    {
      selectedTestCases := Selection.Toggle(selectedTestCases, tcId);
    }

    method ToggleAll()
      modifies this
      ensures State() == Next(old(State()), Event.ToggleAll)
    {
      selectedTestCases := Selection.ToggleAll(selectedTestCases, testCases);
    }

    /** The close button of the error banner. */
    method DismissError()
      modifies this
      ensures State() == Next(old(State()), Event.DismissError)
    {
      error := None;
    }

    /** "New Generation", once confirmed: the reload starts from the initial state. */
    method NewGeneration()
      modifies this
      ensures State() == Next(old(State()), Event.NewGeneration)
    {
      currentStep := 0;
      loading := false;
      error := None;
      formData := RequirementForm.FormData("", "", "");
      inputs := [];
      outputs := [];
      interpretation := None;
      testCases := [];
      selectedTestCases := [];
      coverageReport := None;
      traceabilityMatrix := None;
      assert State() == Initial();
    }
  }
}

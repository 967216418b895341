/** The page (App.tsx): the stored answers and comment, the three view
    flags, the embedded consultation form, and the handlers that move
    between the survey, the result, the consultation form and the
    completion screen. Each handler runs to completion in one step: the
    awaited submissions are resolved by a transport outcome given with the
    event. */
module App {
  import opened Optional
  import opened Catalog
  import opened Scoring
  import opened Consultation
  import opened Gateway

  /** The page's state. `form` is the state of the mounted consultation
      form, `None` while the form is not on screen (React drops it when the
      component unmounts). */
  datatype AppState = AppState(
    answers: Answers,
    freeComment: string,
    isSubmitting: bool,
    showResult: bool,
    showConsultation: bool,
    consultationComplete: bool,
    form: Option<FormState>)

  /** The state on first render. */
  const Initial: AppState := AppState(map[], "", false, false, false, false, None)

  // ---------------------------------------------------------------------------
  // Views
  // ---------------------------------------------------------------------------

  datatype View = SurveyView | ResultView | ConsultationView | CompleteView

  /** The blocks whose render conditions hold, in page order: the survey when
      no result is shown; otherwise the result block, the form block and the
      completion block, each under its own condition. Whatever the flags,
      exactly one block is on screen. */
  function Rendered(s: AppState): (r: seq<View>)
    ensures |r| == 1
  {
    if !s.showResult then [SurveyView]
    else
      (if !s.showConsultation && !s.consultationComplete then [ResultView] else [])
      + (if s.showConsultation && !s.consultationComplete then [ConsultationView] else [])
      + (if s.consultationComplete then [CompleteView] else [])
  }

  /** Reference definition of the visible view, by priority: no result means
      the survey; a completed consultation wins over an open form; an open
      form wins over the result. */
  function ViewOf(s: AppState): View {
    if !s.showResult then SurveyView
    else if s.consultationComplete then CompleteView
    else if s.showConsultation then ConsultationView
    else ResultView
  }

  lemma RenderedIsViewOf(s: AppState)
    ensures Rendered(s) == [ViewOf(s)]
  {
  }

  // ---------------------------------------------------------------------------
  // Handlers
  // ---------------------------------------------------------------------------

  /** `handleAnswer`: the answer for `id` becomes `v`; every other answer
      and all other state are kept. */
  function HandleAnswer(s: AppState, id: int, v: int): (r: AppState)
    ensures r.answers.Keys == s.answers.Keys + {id}
    ensures r.answers[id] == v
    ensures forall k :: k in s.answers && k != id ==> r.answers[k] == s.answers[k]
    ensures r.(answers := s.answers) == s
  {
    s.(answers := s.answers[id := v])
  }

  /** The comment text area's `onChange`. */
  function EditComment(s: AppState, text: string): (r: AppState)
    ensures r.freeComment == text && r.(freeComment := s.freeComment) == s
  {
    s.(freeComment := text)
  }

  /** What a handler did: the state it left and the body it posted, if any. */
  datatype Outcome = Outcome(state: AppState, sent: Option<Payload>)

  /** `handleSubmit`: nothing without a complete set of answers; otherwise
      the diagnosis is submitted and, once that call returns, the in-flight
      flag drops and the result is shown. Should the call throw, the code
      after the `await` never runs and the flag stays raised. */
  function Diagnose(s: AppState, timestamp: string, transport: Transport): (r: Outcome)
    ensures !IsComplete(s.answers) ==> r == Outcome(s, None)
    ensures IsComplete(s.answers) ==>
      r.sent == DiagnosisPayload(Questions, s.answers, s.freeComment, timestamp)
      && r.state == s.(isSubmitting := false, showResult := true)
  {
    if !IsComplete(s.answers) then Outcome(s, None)
    else
      var call := SubmitResults(ScriptUrl, s.answers, s.freeComment, timestamp, transport);
      UrlConfigured();
      if call.raised then Outcome(s.(isSubmitting := true), call.sent)
      else Outcome(s.(isSubmitting := false, showResult := true), call.sent)
  }

  /** `handleStartConsultation`: the form opens with a blank record; from
      the result it replaces the result on screen. */
  function StartConsultation(s: AppState): (r: AppState)
    ensures r.form == Some(InitialForm)
    ensures ViewOf(s) == ResultView ==> ViewOf(r) == ConsultationView
    ensures r.(showConsultation := s.showConsultation, form := s.form) == s
  {
    s.(showConsultation := true, form := Some(InitialForm))
  }

  /** The form's back button (`onBack`): the form closes, what was typed
      into it is dropped and the result is on screen again. */
  function Back(s: AppState): (r: AppState)
    ensures r.form == None
    ensures ViewOf(s) == ConsultationView ==> ViewOf(r) == ResultView
    ensures r.(showConsultation := s.showConsultation, form := s.form) == s
  {
    s.(showConsultation := false, form := None)
  }

  /** `handleChange` inside the open form. */
  function EditField(s: AppState, f: TextField, v: string): (r: AppState)
    ensures s.form.Some? ==> r.form == Some(s.form.value.(data := WithText(s.form.value.data, f, v)))
    ensures s.form.None? ==> r == s
    ensures r.(form := s.form) == s
  {
    match s.form
    case None => s
    case Some(fs) => s.(form := Some(fs.(data := WithText(fs.data, f, v))))
  }

  /** `handleCheckboxChange` inside the open form. */
  function ToggleItem(s: AppState, f: ListField, v: string): (r: AppState)
    ensures s.form.Some? ==> r.form == Some(s.form.value.(data := WithToggled(s.form.value.data, f, v)))
    ensures s.form.None? ==> r == s
    ensures r.(form := s.form) == s
  {
    match s.form
    case None => s
    case Some(fs) => s.(form := Some(fs.(data := WithToggled(fs.data, f, v))))
  }

  /** The form's `handleSubmit` with the page's `onComplete`: the record is
      posted; on success the completion screen replaces the form, on failure
      the form stays with its data and shows the error banner. */
  function SubmitForm(s: AppState, timestamp: string, transport: Transport): (r: Outcome)
    ensures s.form.None? ==> r == Outcome(s, None)
    ensures s.form.Some? ==> r.sent == Some(ConsultationPayload(s.form.value.data, timestamp))
    ensures s.form.Some? && transport == Delivered ==>
      r.state == s.(consultationComplete := true, form := None)
    ensures s.form.Some? && transport == NetworkError ==>
      r.state == s.(form := Some(FormState(s.form.value.data, false, SubmitFailedMessage)))
  {
    match s.form
    case None => Outcome(s, None)
    case Some(fs) =>
      var call := SubmitConsultation(ScriptUrl, fs.data, timestamp, transport);
      UrlConfigured();
      var out := HandleSubmit(fs, if call.raised then Rejected else Resolved);
      if out.completed then Outcome(s.(consultationComplete := true, form := None), call.sent)
      else Outcome(s.(form := Some(out.form)), call.sent)
  }

  /** `handleReset`: answers, comment and all three view flags are cleared
      (the in-flight flag is left as it is). */
  function Reset(s: AppState): (r: AppState)
    ensures r == Initial.(isSubmitting := s.isSubmitting)
  {
    s.(answers := map[], freeComment := "", showResult := false, showConsultation := false,
       consultationComplete := false, form := None)
  }

  // ---------------------------------------------------------------------------
  // Events
  // ---------------------------------------------------------------------------

  /** The user's actions, with the outcome of any network call they make. */
  datatype Event =
    | Answer(questionId: int, value: int)
    | Comment(text: string)
    | Submit(timestamp: string, transport: Transport)
    | OpenConsultation
    | BackToResult
    | FieldInput(field: TextField, text: string)
    | TileToggle(list: ListField, item: string)
    | SendConsultation(timestamp: string, transport: Transport)
    | StartOver

  /** The actions the visible view offers: option buttons (with the values
      of that question's options) and the comment box in the survey, whose
      submit button is disabled until every question is answered and while
      a submission is in flight; the consultation and restart buttons on the
      result; in the form its text inputs, radio tiles (with their choices),
      list tiles, back button and submit button, which submits only when
      idle and when the browser's required-field check passes; the restart
      button on the completion screen. */
  predicate Offered(s: AppState, e: Event) {
    match ViewOf(s)
    case SurveyView =>
      || (e.Answer? && IsOptionValue(e.questionId, e.value))
      || e.Comment?
      || (e.Submit? && IsComplete(s.answers) && !s.isSubmitting)
    case ResultView => e.OpenConsultation? || e.StartOver?
    case ConsultationView =>
      || e.BackToResult?
      || (e.FieldInput? && (IsRadio(e.field) ==> e.text in RadioOptions(e.field)))
      || (e.TileToggle? && e.item in OptionsOf(e.list))
      || (e.SendConsultation? && s.form.Some? && !s.form.value.isSubmitting && Submittable(s.form.value.data))
    case CompleteView => e.StartOver?
  }

  function Step(s: AppState, e: Event): AppState {
    match e
    case Answer(id, v) => HandleAnswer(s, id, v)
    case Comment(t) => EditComment(s, t)
    case Submit(ts, tr) => Diagnose(s, ts, tr).state
    case OpenConsultation => StartConsultation(s)
    case BackToResult => Back(s)
    case FieldInput(f, v) => EditField(s, f, v)
    case TileToggle(f, v) => ToggleItem(s, f, v)
    case SendConsultation(ts, tr) => SubmitForm(s, ts, tr).state
    case StartOver => Reset(s)
  }

  /** Every event of `es` is offered in the state it arrives in. */
  predicate Admissible(s: AppState, es: seq<Event>)
    decreases |es|
  {
    |es| == 0 || (Offered(s, es[0]) && Admissible(Step(s, es[0]), es[1..]))
  }

  function Run(s: AppState, es: seq<Event>): AppState
    decreases |es|
  {
    if |es| == 0 then s else Run(Step(s, es[0]), es[1..])
  }

  // ---------------------------------------------------------------------------
  // The page invariant
  // ---------------------------------------------------------------------------

  /** A form record reachable from the blank one: list fields hold offered
      tiles, each at most once, radio groups hold one of their choices or
      nothing, and no submission is in flight. */
  predicate FormOk(fs: FormState) {
    && !fs.isSubmitting
    && WellFormedList(Symptoms, fs.data.symptoms)
    && WellFormedList(ConsultationPurpose, fs.data.consultationPurpose)
    && RadioOk(fs.data)
  }

  /** What holds between user actions: no diagnosis in flight; completion
      implies an open consultation implies a shown result; the form exists
      exactly while it is on screen; a shown result rests on a complete set
      of catalog answers. */
  predicate Valid(s: AppState) {
    && !s.isSubmitting
    && (s.consultationComplete ==> s.showConsultation)
    && (s.showConsultation ==> s.showResult)
    && (s.form.Some? <==> ViewOf(s) == ConsultationView)
    && (s.form.Some? ==> FormOk(s.form.value))
    && (s.showResult ==> IsComplete(s.answers))
    && ValidAnswers(s.answers)
  }

  lemma InitialValid()
    ensures Valid(Initial) && ViewOf(Initial) == SurveyView
  {
  }

  lemma BlankFormOk()
    ensures FormOk(InitialForm)
  {
    EmptyDataRadioOk();
  }

  /** Editing a field or toggling an offered tile keeps the form record well formed. */
  lemma FormEditsKeepFormOk(fs: FormState, e: Event)
    requires FormOk(fs)
    requires (e.FieldInput? && (IsRadio(e.field) ==> e.text in RadioOptions(e.field)))
          || (e.TileToggle? && e.item in OptionsOf(e.list))
    ensures e.FieldInput? ==> FormOk(fs.(data := WithText(fs.data, e.field, e.text)))
    ensures e.TileToggle? ==> FormOk(fs.(data := WithToggled(fs.data, e.list, e.item)))
  {
    if e.TileToggle? {
      ToggleKeepsWellFormed(e.list, ListOf(fs.data, e.list), e.item);
      var d := WithToggled(fs.data, e.list, e.item);
      assert ListOf(d, Symptoms) == d.symptoms && ListOf(d, ConsultationPurpose) == d.consultationPurpose;
      assert ListOf(fs.data, Symptoms) == fs.data.symptoms;
      assert ListOf(fs.data, ConsultationPurpose) == fs.data.consultationPurpose;
      assert forall f :: TextOf(d, f) == TextOf(fs.data, f);
    } else {
      WithTextKeepsRadioOk(fs.data, e.field, e.text);
      var d := WithText(fs.data, e.field, e.text);
      assert ListOf(d, Symptoms) == d.symptoms && ListOf(d, ConsultationPurpose) == d.consultationPurpose;
    }
  }

  /** Storing a catalog option value keeps the stored answers valid. */
  lemma AnswerKeepsValidAnswers(answers: Answers, id: int, v: int)
    requires ValidAnswers(answers) && IsOptionValue(id, v)
    ensures ValidAnswers(answers[id := v])
  {
    var r := answers[id := v];
    forall k | k in r
      ensures IsOptionValue(k, r[k])
    {
      if k != id {
        assert k in answers;
      }
    }
  }

  /** Every offered action keeps the page invariant. */
  lemma StepPreservesValid(s: AppState, e: Event)
    requires Valid(s) && Offered(s, e)
    ensures Valid(Step(s, e))
  {
    match e
    case Answer(id, v) =>
      AnswerKeepsValidAnswers(s.answers, id, v);
    case Comment(_) =>
    case Submit(ts, tr) =>
    case OpenConsultation =>
      BlankFormOk();
    case BackToResult =>
    case FieldInput(_, _) =>
      FormEditsKeepFormOk(s.form.value, e);
    case TileToggle(_, _) =>
      FormEditsKeepFormOk(s.form.value, e);
    case SendConsultation(ts, tr) =>
    case StartOver =>
  }

  lemma {:induction false} RunPreservesValid(s: AppState, es: seq<Event>)
    requires Valid(s) && Admissible(s, es)
    ensures Valid(Run(s, es))
    decreases |es|
  {
    if |es| > 0 {
      StepPreservesValid(s, es[0]);
      RunPreservesValid(Step(s, es[0]), es[1..]);
    }
  }

  /** Every state reached from the first render by offered actions is valid. */
  lemma ReachableValid(es: seq<Event>)
    requires Admissible(Initial, es)
    ensures Valid(Run(Initial, es))
  {
    InitialValid();
    RunPreservesValid(Initial, es);
  }

  /** In a valid state the flags take one of four combinations, one per view. */
  lemma ValidFlagCombos(s: AppState)
    requires Valid(s)
    ensures var flags := (s.showResult, s.showConsultation, s.consultationComplete);
      && (ViewOf(s) == SurveyView <==> flags == (false, false, false))
      && (ViewOf(s) == ResultView <==> flags == (true, false, false))
      && (ViewOf(s) == ConsultationView <==> flags == (true, true, false))
      && (ViewOf(s) == CompleteView <==> flags == (true, true, true))
  {
  }

  /** Whenever the result is on screen it describes a complete set of
      answers: its total lies in 5..25 and a weak point is named. */
  lemma ResultViewFacts(s: AppState)
    requires Valid(s) && ViewOf(s) == ResultView
    ensures 5 <= CalculateResult(s.answers).total <= 25
    ensures CalculateResult(s.answers).weakPointShort.Some?
  {
    CalculateResultComplete(s.answers);
  }

  // ---------------------------------------------------------------------------
  // Properties of single handlers
  // ---------------------------------------------------------------------------

  /** From a valid state, diagnosing never leaves the submit flag raised, and
      what the network did makes no difference to the page. */
  lemma DiagnoseIgnoresTransport(s: AppState, timestamp: string)
    requires Valid(s)
    ensures Diagnose(s, timestamp, NetworkError) == Diagnose(s, timestamp, Delivered)
    ensures !Diagnose(s, timestamp, NetworkError).state.isSubmitting
  {
  }

  /** Restarting from any valid state gives back the first render. */
  lemma ResetRestoresInitial(s: AppState)
    requires Valid(s)
    ensures Reset(s) == Initial
  {
  }

  /** Answering every question of the catalog and submitting shows the
      result, whose total is the sum of the chosen values. */
  lemma DiagnoseShowsResult(s: AppState, timestamp: string, transport: Transport)
    requires Valid(s) && ViewOf(s) == SurveyView && IsComplete(s.answers)
    ensures ViewOf(Diagnose(s, timestamp, transport).state) == ResultView
    ensures Valid(Diagnose(s, timestamp, transport).state)
    ensures Diagnose(s, timestamp, transport).sent.Some?
  {
  }

  /** A failed consultation submission keeps the form on screen with every
      answer given so far; submitting again after a successful network call
      completes it. */
  lemma FormRetryAfterFailure(s: AppState, t1: string, t2: string)
    requires Valid(s) && ViewOf(s) == ConsultationView
    ensures var failed := SubmitForm(s, t1, NetworkError).state;
      && ViewOf(failed) == ConsultationView
      && failed.form.Some? && failed.form.value.data == s.form.value.data
      && failed.form.value.error == SubmitFailedMessage
      && ViewOf(SubmitForm(failed, t2, Delivered).state) == CompleteView
      && SubmitForm(failed, t2, Delivered).sent == SubmitForm(s, t2, Delivered).sent
  {
  }

  /** Leaving the form and reopening it starts from the blank record. */
  lemma BackThenReopenIsBlank(s: AppState)
    requires Valid(s) && ViewOf(s) == ConsultationView
    ensures ViewOf(Back(s)) == ResultView
    ensures StartConsultation(Back(s)).form == Some(InitialForm)
  {
  }

  /** Opening the consultation from the result shows a blank form. */
  lemma OpenShowsForm(s: AppState)
    requires Valid(s) && ViewOf(s) == ResultView
    ensures Offered(s, OpenConsultation)
    ensures ViewOf(Step(s, OpenConsultation)) == ConsultationView
    ensures Step(s, OpenConsultation).form == Some(InitialForm)
  {
  }

  /** Sending the form over a working network posts its record and shows
      the completion screen. */
  lemma SendCompletes(s: AppState, timestamp: string)
    requires Valid(s) && ViewOf(s) == ConsultationView && Submittable(s.form.value.data)
    ensures Offered(s, SendConsultation(timestamp, Delivered))
    ensures ViewOf(Step(s, SendConsultation(timestamp, Delivered))) == CompleteView
    ensures SubmitForm(s, timestamp, Delivered).sent == Some(ConsultationPayload(s.form.value.data, timestamp))
  {
  }

  /** The record an open, well-formed form posts decodes back to exactly the
      record on screen: its tiles hold no comma, so the joined list fields
      split back into the ticked tiles. */
  lemma SentFormDecodes(s: AppState, timestamp: string, transport: Transport)
    requires Valid(s) && s.form.Some?
    ensures SubmitForm(s, timestamp, transport).sent.Some?
    ensures DecodeConsultation(SubmitForm(s, timestamp, transport).sent.value) == Some(s.form.value.data)
  {
    var d := s.form.value.data;
    WellFormedSplittable(Symptoms, d.symptoms);
    WellFormedSplittable(ConsultationPurpose, d.consultationPurpose);
    ConsultationRoundTrip(d, timestamp);
  }
}

# Nutrition self-check quiz — a Dafny model

The quiz is a single-page React application. A visitor answers five
fixed multiple-choice questions about eating habits (values 1..5 each),
submits them, and sees a diagnosis: a three-tier rank (S/A/B) chosen
from the total, with fixed texts, the weakest question and a radar
chart. The total itself is not shown. From the result the visitor may
open a consultation form. Both the diagnosis and the form are posted as
multipart `FormData` bodies (ordered key/value lists) to a spreadsheet
web app.

This project models that core as pure Dafny functions and proves
properties about them:

- `Catalog` (`catalog.dfy`) holds the question catalog and the web-app
  address (`constants.ts`), with the `find` lookups used on them.
- `Scoring` (`scoring.dfy`) holds completeness, the total, the weak-point
  scan, the rank step function and `calculateResult` (`App.tsx`).
- `Consultation` (`consultation.dfy`) holds the form record, its field
  updates, the tile toggles, the radio choices, the required-field check
  and the form's submit handler (`components/ConsultationForm.tsx`).
- `Gateway` (`gateway.dfy`) holds the two submissions of
  `services/api.ts`: the ordered bodies, the skip on an unconfigured
  address, and their opposite error policies.
- `Chart` (`chart.dfy`) holds the radar chart data
  (`components/ResultChart.tsx`).
- `App` (`app.dfy`) holds the page state, the handlers, the events each
  view offers, and the page invariant that every offered event preserves
  (`App.tsx`).
- `Text` (`text.dfy`) and `Optional` (`optional.dfy`) are support
  modules. `Text` models `includes`, `join(', ')` with its inverse, and
  the decimal rendering of integers with its parser.

Network calls are parameters. A `Transport` value says whether `fetch`
delivered or threw, and the timestamp is an opaque string. Each
asynchronous handler runs to completion in one step.

## Model

| member | source | states |
|---|---|---|
| Catalog.CatalogIds | constants.ts:3-64 | There are five questions with ids 1..5 in ascending order, so the ids are distinct. |
| Catalog.CatalogOptionValues | constants.ts:3-64 | Every question offers exactly the values 1..5, in that order. |
| Catalog.OptionValueRange | constants.ts:3-64 | A (question id, value) pair can be chosen exactly when both lie in 1..5. |
| Catalog.QuestionIdRange | constants.ts:3-64 | A number is a question id exactly when it lies in 1..5. |
| Catalog.CatalogIdList | constants.ts:3-64 | The question ids in catalog order are [1, 2, 3, 4, 5]. |
| Catalog.UrlConfigured | constants.ts:70 | The configured address does not contain the placeholder marker, so no submission is skipped. |
| Catalog.IsConfigured | services/api.ts:8 | An address is configured exactly when it does not contain the placeholder marker. `Catalog.PlaceholderUnconfigured` is its partner lemma. |
| Catalog.PlaceholderUnconfigured | services/api.ts:8 | Any address that carries the marker anywhere is unconfigured, so both submissions skip it. |
| Catalog.LabelFor | services/api.ts:19 | The result is the label of the first option with the value, or "" when no option has it. |
| Catalog.CatalogLabels | services/api.ts:19 | For a catalog question and a value in 1..5, the label lookup gives that option's label, which is non-empty. |
| Catalog.FindQuestion | App.tsx:43 | The lookup finds something exactly when some question has the id, and what it finds is the first question with that id: every earlier question has a different id. |
| Scoring.IsComplete | App.tsx:25 | Every catalog question has a stored answer. `Scoring.IsCompleteKeys` is its partner lemma. |
| Scoring.IsCompleteKeys | App.tsx:25 | The answers are complete exactly when each of the ids 1..5 has an answer. |
| Scoring.Total | App.tsx:28-29 | The sum of every stored value. It is characterised by `Scoring.TotalRemove`, `Scoring.TotalUpdate` and `Scoring.TotalIsSumOver`. |
| Scoring.TotalRemove | App.tsx:28-29 | Any stored entry can be taken out of the sum first, so the total does not depend on the order in which the entries are added. |
| Scoring.TotalUpdate | App.tsx:28-29 | Storing v for a key makes the total v plus the total of the other entries. |
| Scoring.TotalIsSumOver | App.tsx:28-29 | When every key is a question id, the total equals the per-question sum in catalog order. |
| Scoring.TotalBoundsOver | App.tsx:28-29 | With answers in 1..5 for exactly the questions of a list, the total lies between the list length and five times it. |
| Scoring.TotalBounds | App.tsx:28-29 | A complete set of option values totals between 5 and 25. |
| Scoring.ScanWeakest | App.tsx:35-41 | The `forEach` with its strict `<` update. It is characterised by `Scoring.ScanWeakestSpec` against the independent first-minimum predicate. |
| Scoring.ScanWeakestSpec | App.tsx:32-41 | The scan keeps its start when no answer is below the start. Otherwise it ends on the first minimal answered question. |
| Scoring.WeakestUnique | App.tsx:32-41 | At most one question is the weakest: ties go to the earliest. |
| Scoring.WeakPointSpec | App.tsx:32-41 | The weak-point id is 0 when no answer is below 6. Otherwise it is the id of the first minimal answered question. |
| Scoring.WeakPointFound | App.tsx:32-43 | With at least one stored option value, a weak point exists and names a catalog question. |
| Scoring.WeakPointTieExample | App.tsx:37 | For scores {1:3, 2:1, 3:1, 4:4, 5:5}, the weak point is question 2, because the strict comparison keeps the first tie. |
| Scoring.RankFor | App.tsx:45-57 | The rank is S exactly when total ≥ 22, A exactly when 15 ≤ total < 22, and B exactly when total < 15. |
| Scoring.RankMonotone | App.tsx:45-57 | A larger total never gives a lower rank. |
| Scoring.MainTextIdentifiesRank | App.tsx:46-55 | The three headlines are distinct, so the headline determines the rank. |
| Scoring.CalculateResult | App.tsx:27-60 | The total, the rank of that total and the rank's texts. The weak point's short title is present exactly when some answer is below 6, and it is then the first minimal question's. |
| Scoring.CalculateResultEmpty | App.tsx:95 | With no answers yet the result is total 0, rank B, no weak point. |
| Scoring.CalculateResultComplete | App.tsx:27-60 | For complete catalog answers the total is in 5..25 and a weak point is named. |
| Consultation.EmptyDataIsBlank | components/ConsultationForm.tsx:128-142 | The initial record has every text field "" and every list empty. |
| Consultation.EmptyDataRadioOk | components/ConsultationForm.tsx:128-142 | The blank record has no radio choice made, and the required-field check rejects it. |
| Consultation.WithText | components/ConsultationForm.tsx:146-149 | The named field holds the new value, and every other field and both lists are unchanged. |
| Consultation.WithTextKeepsRadioOk | components/ConsultationForm.tsx:35-58 | Picking a radio choice or typing free text keeps every radio group empty or on one of its choices. |
| Consultation.Without | components/ConsultationForm.tsx:155 | The filter removes every copy of the value and keeps the count of every other value. |
| Consultation.WithoutKeepsOrder | components/ConsultationForm.tsx:155 | The filter works item by item and keeps survivors in order: filtering a concatenation filters each part, and a single item survives exactly when it differs from the value. |
| Consultation.Toggle | components/ConsultationForm.tsx:151-160 | After the toggle the value is present exactly when it was absent before. A present value is filtered out (so the other items keep their order), and an absent value is appended at the end. Other values keep their counts. |
| Consultation.ToggleTwice | components/ConsultationForm.tsx:151-160 | Ticking and then unticking an absent value restores the list exactly. |
| Consultation.ToggleKeepsNoDuplicates | components/ConsultationForm.tsx:151-160 | Toggling never creates a duplicate. |
| Consultation.WithToggled | components/ConsultationForm.tsx:151-160 | Only the named list is toggled, and the other list and all text fields are unchanged. |
| Consultation.ToggleKeepsWellFormed | components/ConsultationForm.tsx:151-160 | Toggling an offered tile keeps a list made of offered tiles, each at most once. |
| Consultation.OptionsSplittable | components/ConsultationForm.tsx:297-318 | Every symptom and purpose tile is non-empty and has no comma. |
| Consultation.EmptyListsSubmittable | components/ConsultationForm.tsx:296-320 | A record with both tile lists empty passes the required-field check. |
| Consultation.HandleSubmit | components/ConsultationForm.tsx:162-175 | The data is kept and the in-flight flag ends false. Completion happens exactly on success: the error is "" on success and the fixed message on failure. |
| Consultation.SubmitIgnoresOldError | components/ConsultationForm.tsx:164 | A leftover error banner has no effect on the outcome of a new attempt. |
| Gateway.AnswerEntries | services/api.ts:17-22 | The entries exist exactly when every question is answered, and there are two per question. |
| Gateway.AnswerEntriesAt | services/api.ts:17-22 | Question i has its score at position 2i and the label of the chosen option at 2i+1. |
| Gateway.AnswerEntriesKeys | services/api.ts:20-21 | The entry keys are Q{id}_score and Q{id}_answer for each question id, in catalog order. |
| Gateway.DiagnosisPayload | services/api.ts:13-24 | The body exists exactly when every question is answered, and it has 2n+3 entries. |
| Gateway.DiagnosisPayloadLayout | services/api.ts:13-24 | The body is type, timestamp, a (score, label) pair per question, then the free comment. |
| Gateway.DiagnosisPayloadKeys | services/api.ts:13-24 | The keys are type, timestamp, the per-question keys and free_comment, and they depend only on the ids. |
| Gateway.CatalogDiagnosisKeys | services/api.ts:13-24 | For the catalog the body has exactly 13 keys, in the listed order. |
| Gateway.CatalogDiagnosisLabels | services/api.ts:19-21 | For the catalog each answer entry carries the chosen option's label, which is never empty. |
| Gateway.DiagnosisScoresRecoverable | services/api.ts:20 | Each score entry parses back to the stored answer. |
| Gateway.QuestionKeysDistinct | services/api.ts:20-21 | Distinct ids give pairwise distinct per-question keys. |
| Gateway.DiagnosisKeysDistinct | services/api.ts:13-24 | With distinct ids no key of the body repeats, so no entry shadows another. |
| Gateway.SubmitResults | services/api.ts:7-35 | An unconfigured address sends nothing and raises nothing. Otherwise the diagnosis body is sent, and an exception escapes only when an answer is missing. |
| Gateway.SubmitResultsSwallowsTransport | services/api.ts:26-34 | A network failure leaves the diagnosis call's result unchanged. |
| Gateway.ConsultationPayloadKeys | services/api.ts:46-69 | The consultation body has the 15 fixed keys in order. |
| Gateway.ConsultationRoundTrip | services/api.ts:46-69 | Decoding the body gives the record back when list items are non-empty and comma-free. |
| Gateway.EmptyListSentEmpty | services/api.ts:63-67 | An empty list field is sent as the empty string. |
| Gateway.ConsultationPayload | services/api.ts:46-69 | The consultation body in append order. `Gateway.ConsultationPayloadKeys` gives its keys, and `Gateway.ConsultationRoundTrip` shows it loses nothing. |
| Gateway.SubmitConsultation | services/api.ts:40-80 | An unconfigured address sends nothing. Otherwise the body is sent, and a network failure reaches the caller. |
| Chart.ChartData | components/ResultChart.tsx:11-15 | There is one row per question, in order, with its short title and full mark 5. It holds the stored value, or 0 when unanswered. |
| Chart.ChartSumIsTotal | components/ResultChart.tsx:11-15 | When every key is a question id, the plotted values add up to the diagnosis total. |
| Chart.ChartWithinScale | components/ResultChart.tsx:13-27 | For stored option values every point lies in 0..5, and it is at least 1 once answered. |
| App.Rendered | App.tsx:126-264 | Exactly one of the four view blocks is rendered, whatever the flags. |
| App.RenderedIsViewOf | App.tsx:126-264 | The rendered block is the one the priority order survey, completion, form, result selects. |
| App.Offered | App.tsx:126-264 | The events each view offers: answers, the comment and a complete submit on the survey; the form button and restart on the result; form input, tile toggles, back and a filled-in send on the form; restart on completion. `App.StepPreservesValid` is stated over it. |
| App.HandleAnswer | App.tsx:21-23 | The answer for the id becomes the value, and every other answer and all other state are kept. |
| App.EditComment | App.tsx:147-149 | Only the comment changes. |
| App.Diagnose | App.tsx:62-77 | Incomplete answers change nothing. Otherwise the diagnosis body is sent, the flag is lowered and the result is shown. |
| App.StartConsultation | App.tsx:88-93 | The form opens blank, and from the result the form view replaces it. |
| App.Back | App.tsx:257 | The form closes with its input dropped, and the result view returns. |
| App.EditField | components/ConsultationForm.tsx:146-149 | The open form's record gets the field update, and nothing else changes. |
| App.ToggleItem | components/ConsultationForm.tsx:151-160 | The open form's record gets the tile toggle, and nothing else changes. |
| App.SubmitForm | components/ConsultationForm.tsx:162-175 | The record is posted. Success shows the completion screen. A network failure keeps the form with its data and shows the fixed error. |
| App.Reset | App.tsx:79-86 | Everything returns to the first render except the in-flight flag. |
| App.ResetRestoresInitial | App.tsx:79-86 | From any valid state, restarting gives exactly the first render. |
| App.InitialValid | App.tsx:11-16 | The first render satisfies the page invariant and shows the survey. |
| App.BlankFormOk | components/ConsultationForm.tsx:128-144 | The freshly mounted form is idle, with empty lists and no radio choice. |
| App.FormEditsKeepFormOk | components/ConsultationForm.tsx:146-160 | Field edits and offered tile toggles keep the form record well formed. |
| App.AnswerKeepsValidAnswers | App.tsx:21-23 | Storing a catalog option value keeps every stored entry a catalog (question, value) pair. |
| App.StepPreservesValid | App.tsx:21-93 | Every action the visible view offers preserves the page invariant. |
| App.RunPreservesValid | App.tsx:21-93 | Any sequence of offered actions preserves the page invariant. |
| App.ReachableValid | App.tsx:10-93 | When each handler runs to completion before the next event, every state reachable from the first render satisfies the invariant. That means no submission is left in flight, completion implies form implies result, the form state exists exactly while shown, and a shown result has complete answers. |
| App.ValidFlagCombos | App.tsx:126-264 | In a valid state the three flags take one of four combinations, one per view. |
| App.ResultViewFacts | App.tsx:185-223 | Whenever the result is on screen its total is in 5..25 and a weak point is named. |
| App.DiagnoseIgnoresTransport | App.tsx:62-77 | The page after diagnosing does not depend on the network outcome, and the submit flag never stays raised. |
| App.DiagnoseShowsResult | App.tsx:62-77 | Submitting complete answers from the survey shows the result, keeps the invariant and posts a body. |
| App.OpenShowsForm | App.tsx:88-93 | The result offers the consultation button, which shows a blank form. |
| App.BackThenReopenIsBlank | App.tsx:254-260 | Going back and reopening starts again from the blank record. |
| App.SendCompletes | App.tsx:254-260 | A filled-in form can be sent. Over a working network it posts the record and shows the completion screen. |
| App.FormRetryAfterFailure | components/ConsultationForm.tsx:162-175 | A failed send keeps the form and its data and shows the error. A later successful send completes and posts the same record. |
| App.SentFormDecodes | services/api.ts:46-69 | From any valid page with the form open, the posted body decodes back to exactly the record on screen, so joining the tile lists loses nothing. |
| Text.SplitJoin | services/api.ts:63-67 | Splitting a joined non-empty list of non-empty, comma-free items gives the list back. |
| Text.UnjoinJoin | services/api.ts:63-67 | Reading a joined list back, with "" read as the empty list, gives the list. |
| Text.Join | services/api.ts:63 | `join(', ')`. It is characterised by `Text.SplitJoin` and `Text.UnjoinJoin`. |
| Text.ParseIntToString | services/api.ts:20 | Parsing the decimal rendering of an integer gives the integer back. |
| Text.IntToString | services/api.ts:20 | The decimal rendering of an integer, below 10^21 in magnitude. It is characterised by `Text.ParseIntToString`. |
| Text.IntToStringInjective | services/api.ts:20 | Distinct integers render as distinct strings. |

## Left out

- Rendering, styling, animation, scrolling and the `setTimeout` scroll
  calls are presentation only.
- `fetch`, `FormData`, `new Date().toISOString()` and `console` are
  abstracted. The transport outcome and the timestamp are parameters. The
  body is modelled as an ordered key/value list.
- The in-flight window of each asynchronous handler is collapsed into one
  step. The model does not cover a second click or a view change while a
  request is pending. The page's `isSubmitting` flag is modelled as
  raised only if the diagnosis call throws, and that cannot happen once
  the answers are complete. The form's back button stays enabled while a
  send is pending. In the program, going back and then having the send
  resolve still calls `onComplete`. That leaves the completion flag set
  while the form is hidden, and after a restart the next diagnosis jumps
  straight to the completion screen. `App.ReachableValid` covers only
  runs in which each handler completes before the next event, so this
  race lies outside it.
- Text.IntToString: JavaScript prints numbers of magnitude 10^21 and
  above in exponent form (`1e+21`). The model always prints plain
  digits, so it matches `toString()` only below 10^21. That covers the
  scores 1..5 it renders, and `Text.ParseIntToString` and
  `Gateway.DiagnosisScoresRecoverable` hold for the model's rendering.
- Scoring.Total: JavaScript numbers are doubles, and the model uses
  unbounded integers. With values 1..5 no rounding can occur.
- Consultation.Submittable: the browser's e-mail syntax check on the
  `type="email"` input is not modelled. Only non-emptiness of the
  required inputs is.
- Consultation.WithText: `handleChange` indexes the record by the input's
  `name` string. The model uses an enumeration of the eleven input names,
  so it cannot write an unknown key.
- App.Offered: option values come from `QuestionCard`, which reports
  the clicked option's value. `QuestionCard` itself is not modelled.
- The `DiagnosisResult` interface in `types.ts` is never used by the
  code and is not modelled. `CONSULTATION_FORM_URL` is likewise unused.
- The page shows required marks on the two tile lists, but nothing
  enforces them. `Consultation.EmptyListsSubmittable` states that
  behaviour as written.

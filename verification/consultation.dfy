/** The consultation form (components/ConsultationForm.tsx, with the
    `ConsultationData` record of types.ts): the record of answers, its
    field-by-field updates, the multi-select toggles and the state the form
    is left in after a submission attempt. */
module Consultation {
  import opened Text

  /** The form's data: eleven text fields and two multi-select lists. */
  datatype ConsultationData = ConsultationData(
    name: string,
    age: string,
    gender: string,
    email: string,
    livingSituation: string,
    mealCount: string,
    eatingOutFrequency: string,
    medicalHistory: string,
    symptoms: seq<string>,
    exerciseHabits: string,
    consultationPurpose: seq<string>,
    consultationExperience: string,
    content: string)

  /** The `name` attributes of the form's text inputs, radio groups and text areas. */
  datatype TextField =
    | Name | Age | Gender | Email | LivingSituation | MealCount | EatingOutFrequency
    | MedicalHistory | ExerciseHabits | ConsultationExperience | Content

  /** The two multi-select fields. */
  datatype ListField = Symptoms | ConsultationPurpose

  /** The initial `formData`: every text empty, every list empty. */
  const EmptyData: ConsultationData :=
    ConsultationData("", "", "", "", "", "", "", "", [], "", [], "", "")

  function TextOf(d: ConsultationData, f: TextField): string {
    match f
    case Name => d.name
    case Age => d.age
    case Gender => d.gender
    case Email => d.email
    case LivingSituation => d.livingSituation
    case MealCount => d.mealCount
    case EatingOutFrequency => d.eatingOutFrequency
    case MedicalHistory => d.medicalHistory
    case ExerciseHabits => d.exerciseHabits
    case ConsultationExperience => d.consultationExperience
    case Content => d.content
  }

  function ListOf(d: ConsultationData, f: ListField): seq<string> {
    match f
    case Symptoms => d.symptoms
    case ConsultationPurpose => d.consultationPurpose
  }

  /** The initial record is blank in every field. */
  lemma EmptyDataIsBlank()
    ensures forall f :: TextOf(EmptyData, f) == ""
    ensures forall f :: ListOf(EmptyData, f) == []
  {
  }

  // ---------------------------------------------------------------------------
  // handleChange
  // ---------------------------------------------------------------------------

  /** `handleChange`: the input named `f` now holds `v`; nothing else moves. */
  function WithText(d: ConsultationData, f: TextField, v: string): (r: ConsultationData)
    ensures TextOf(r, f) == v
    ensures forall g :: g != f ==> TextOf(r, g) == TextOf(d, g)
    ensures forall l :: ListOf(r, l) == ListOf(d, l)
  {
    match f
    case Name => d.(name := v)
    case Age => d.(age := v)
    case Gender => d.(gender := v)
    case Email => d.(email := v)
    case LivingSituation => d.(livingSituation := v)
    case MealCount => d.(mealCount := v)
    case EatingOutFrequency => d.(eatingOutFrequency := v)
    case MedicalHistory => d.(medicalHistory := v)
    case ExerciseHabits => d.(exerciseHabits := v)
    case ConsultationExperience => d.(consultationExperience := v)
    case Content => d.(content := v)
  }

  // ---------------------------------------------------------------------------
  // handleCheckboxChange
  // ---------------------------------------------------------------------------

  /** `xs.filter(item => item !== v)`. */
  function Without(xs: seq<string>, v: string): (r: seq<string>)
    ensures multiset(r)[v] == 0
    ensures forall w :: w != v ==> multiset(r)[w] == multiset(xs)[w]
  {
    if |xs| == 0 then []
    else
      assert xs == [xs[0]] + xs[1..];
      if xs[0] == v then Without(xs[1..], v) else [xs[0]] + Without(xs[1..], v)
  }

  /** `includes(v) ? filter(!== v) : [...xs, v]`: a present value leaves the
      list (every occurrence), an absent one is appended at the end. */
  function Toggle(xs: seq<string>, v: string): (r: seq<string>)
    ensures v in r <==> v !in xs
    ensures forall w :: w != v ==> multiset(r)[w] == multiset(xs)[w]
    ensures v !in xs ==> r[..|r| - 1] == xs && r[|r| - 1] == v
    ensures v in xs ==> r == Without(xs, v)
  {
    if v in xs then Without(xs, v) else xs + [v]
  }

  /** `filter` keeps the surviving items in their order: it works item by
      item, and a split list is filtered part by part. */
  lemma {:induction false} WithoutKeepsOrder(a: seq<string>, b: seq<string>, v: string)
    ensures Without(a + b, v) == Without(a, v) + Without(b, v)
    ensures |a| == 1 ==> Without(a, v) == (if a[0] == v then [] else a)
    decreases |a|
  {
    if |a| == 0 {
      assert a + b == b;
    } else {
      assert (a + b)[1..] == a[1..] + b;
      assert (a + b)[0] == a[0];
      WithoutKeepsOrder(a[1..], b, v);
    }
  }

  lemma {:induction false} WithoutAbsentAppended(xs: seq<string>, v: string)
    requires v !in xs
    ensures Without(xs + [v], v) == xs
    decreases |xs|
  {
    if |xs| > 0 {
      assert (xs + [v])[1..] == xs[1..] + [v];
      WithoutAbsentAppended(xs[1..], v);
      assert [xs[0]] + xs[1..] == xs;
    }
  }

  /** Ticking and then unticking a box restores the list exactly. */
  lemma ToggleTwice(xs: seq<string>, v: string)
    requires v !in xs
    ensures Toggle(Toggle(xs, v), v) == xs
  {
    WithoutAbsentAppended(xs, v);
  }

  predicate NoDuplicates(xs: seq<string>) {
    forall i, j :: 0 <= i < j < |xs| ==> xs[i] != xs[j]
  }

  lemma NoDuplicatesByCount(xs: seq<string>)
    requires forall w :: multiset(xs)[w] <= 1
    ensures NoDuplicates(xs)
  {
    forall i, j | 0 <= i < j < |xs|
      ensures xs[i] != xs[j]
    {
      var a, b, c := xs[..i], xs[i + 1..j], xs[j + 1..];
      assert xs == a + [xs[i]] + b + [xs[j]] + c;
      assert multiset(xs) == multiset(a) + multiset([xs[i]]) + multiset(b) + multiset([xs[j]]) + multiset(c);
      var w := xs[i];
      assert multiset(xs)[w] <= 1;
      assert multiset(xs)[w] >= 1 + multiset([xs[j]])[w];
      if xs[i] == xs[j] {
        assert false;
      }
    }
  }

  lemma {:induction false} CountOfNoDuplicates(xs: seq<string>, w: string)
    requires NoDuplicates(xs)
    ensures multiset(xs)[w] <= 1
    decreases |xs|
  {
    if |xs| > 0 {
      assert xs == [xs[0]] + xs[1..];
      CountOfNoDuplicates(xs[1..], w);
      if xs[0] == w {
        assert w !in xs[1..];
      }
    }
  }

  /** Toggling never introduces a duplicate. */
  lemma ToggleKeepsNoDuplicates(xs: seq<string>, v: string)
    requires NoDuplicates(xs)
    ensures NoDuplicates(Toggle(xs, v))
  {
    var r := Toggle(xs, v);
    forall w
      ensures multiset(r)[w] <= 1
    {
      CountOfNoDuplicates(xs, w);
      if w == v && v !in xs {
        assert r == xs + [v];
      }
    }
    NoDuplicatesByCount(r);
  }

  /** `handleCheckboxChange(field, value)`: only the named list changes. */
  function WithToggled(d: ConsultationData, f: ListField, v: string): (r: ConsultationData)
    ensures ListOf(r, f) == Toggle(ListOf(d, f), v)
    ensures forall g :: g != f ==> ListOf(r, g) == ListOf(d, g)
    ensures forall t :: TextOf(r, t) == TextOf(d, t)
  {
    match f
    case Symptoms => d.(symptoms := Toggle(d.symptoms, v))
    case ConsultationPurpose => d.(consultationPurpose := Toggle(d.consultationPurpose, v))
  }

  /** The tiles offered for each multi-select field. */
  const SymptomOptions: seq<string> := ["特になし", "便秘", "貧血", "食欲不振", "むくみ", "疲れやすい", "その他"]
  const PurposeOptions: seq<string> := ["ダイエット", "筋肉をつけたい", "体調改善", "食習慣を変えたい", "その他"]

  function OptionsOf(f: ListField): seq<string> {
    match f
    case Symptoms => SymptomOptions
    case ConsultationPurpose => PurposeOptions
  }

  /** Every tile is non-empty and comma-free, so joined lists of tiles can be
      split back. */
  lemma OptionsSplittable(f: ListField)
    ensures Splittable(OptionsOf(f))
  {
  }

  /** The radio-tile groups and their choices; the other text fields are
      free text. */
  predicate IsRadio(f: TextField) {
    f in {Age, Gender, LivingSituation, MealCount, EatingOutFrequency, ExerciseHabits, ConsultationExperience}
  }

  function RadioOptions(f: TextField): seq<string> {
    match f
    case Age => ["20代", "30代", "40代", "50代", "60代以上"]
    case Gender => ["男性", "女性", "回答しない"]
    case LivingSituation => ["一人暮らし", "実家暮らし", "配偶者と同居", "子供と同居", "シェアハウス", "その他"]
    case MealCount => ["1回", "2回", "3回", "4回以上"]
    case EatingOutFrequency => ["ほとんどなし", "週1～2回", "週3～4回", "ほぼ毎日"]
    case ExerciseHabits => ["なし", "週1～2回", "週3回以上"]
    case ConsultationExperience => ["初めて", "受けたことがある"]
    case _ => []
  }

  /** A radio group holds nothing yet or one of its choices. */
  predicate RadioOk(d: ConsultationData) {
    forall f :: IsRadio(f) ==> TextOf(d, f) == "" || TextOf(d, f) in RadioOptions(f)
  }

  /** What the browser's constraint validation demands before it lets the
      form submit: the inputs marked `required` (name, e-mail, the consultation
      text and every radio group) are filled. The two tile lists carry no
      such constraint. */
  predicate Submittable(d: ConsultationData) {
    && d.name != "" && d.email != "" && d.content != ""
    && forall f :: IsRadio(f) ==> TextOf(d, f) != ""
  }

  /** The blank record satisfies the radio constraint and is not submittable. */
  lemma EmptyDataRadioOk()
    ensures RadioOk(EmptyData) && !Submittable(EmptyData)
  {
  }

  /** Choosing a radio tile, or typing into a free-text field, keeps every
      radio group on one of its choices. */
  lemma WithTextKeepsRadioOk(d: ConsultationData, f: TextField, v: string)
    requires RadioOk(d) && (IsRadio(f) ==> v in RadioOptions(f))
    ensures RadioOk(WithText(d, f, v))
  {
    var r := WithText(d, f, v);
    forall g | IsRadio(g)
      ensures TextOf(r, g) == "" || TextOf(r, g) in RadioOptions(g)
    {
      if g != f {
        assert TextOf(r, g) == TextOf(d, g);
      }
    }
  }

  /** The tile lists are marked as required on screen but nothing enforces
      it: a record with both lists empty passes the browser's check. */
  lemma EmptyListsSubmittable()
    ensures var d := ConsultationData("a", "20代", "男性", "a@b", "一人暮らし", "1回", "ほとんどなし", "",
        [], "なし", [], "初めて", "c");
      Submittable(d) && RadioOk(d) && d.symptoms == [] && d.consultationPurpose == []
  {
  }

  /** A list built from tiles by toggling: tiles only, each at most once. */
  predicate WellFormedList(f: ListField, xs: seq<string>) {
    NoDuplicates(xs) && forall i :: 0 <= i < |xs| ==> xs[i] in OptionsOf(f)
  }

  lemma ToggleKeepsWellFormed(f: ListField, xs: seq<string>, v: string)
    requires WellFormedList(f, xs) && v in OptionsOf(f)
    ensures WellFormedList(f, Toggle(xs, v))
  {
    ToggleKeepsNoDuplicates(xs, v);
    var r := Toggle(xs, v);
    forall i | 0 <= i < |r|
      ensures r[i] in OptionsOf(f)
    {
      if r[i] != v {
        assert r[i] in multiset(r);
        assert r[i] in multiset(xs);
      }
    }
  }

  lemma WellFormedSplittable(f: ListField, xs: seq<string>)
    requires WellFormedList(f, xs)
    ensures Splittable(xs)
  {
    OptionsSplittable(f);
    forall i | 0 <= i < |xs|
      ensures |xs[i]| > 0 && Lacks(xs[i], ',')
    {
      var k :| 0 <= k < |OptionsOf(f)| && OptionsOf(f)[k] == xs[i];
    }
  }

  // ---------------------------------------------------------------------------
  // Submission state
  // ---------------------------------------------------------------------------

  /** The component's state: its data, the in-flight flag and the error banner. */
  datatype FormState = FormState(data: ConsultationData, isSubmitting: bool, error: string)

  const InitialForm: FormState := FormState(EmptyData, false, "")

  const SubmitFailedMessage: string := "送信に失敗しました。通信環境をご確認の上、再度お試しください。"

  /** How the awaited submission settled. */
  datatype Settled = Resolved | Rejected

  /** The form after `handleSubmit`, and whether `onComplete` was called. */
  datatype SubmitOutcome = SubmitOutcome(form: FormState, completed: bool)

  /** `handleSubmit`: clear the error, submit, then on success call
      `onComplete`, on failure show the fixed message; either way the data is
      kept and the in-flight flag ends false. */
  function HandleSubmit(form: FormState, settled: Settled): (r: SubmitOutcome)
    ensures r.form.data == form.data
    ensures !r.form.isSubmitting
    ensures r.completed <==> settled == Resolved
    ensures r.completed ==> r.form.error == ""
    ensures !r.completed ==> r.form.error == SubmitFailedMessage
  {
    var cleared := form.(error := "", isSubmitting := true);
    match settled
    case Resolved => SubmitOutcome(cleared.(isSubmitting := false), true)
    case Rejected => SubmitOutcome(cleared.(error := SubmitFailedMessage, isSubmitting := false), false)
  }

  /** A retry after a failure behaves exactly like a first attempt: the old
      banner has no effect on the outcome. */
  lemma SubmitIgnoresOldError(form: FormState, settled: Settled)
    ensures HandleSubmit(form, settled) == HandleSubmit(form.(error := ""), settled)
  {
  }
}

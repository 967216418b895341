/** The static data of the quiz: the five questions with their answer
    options, and the address the submissions are posted to (constants.ts,
    with the `Question`/`Option` shapes of types.ts). */
module Catalog {
  import opened Optional
  import opened Text

  datatype QuestionOption = QuestionOption(value: int, labelText: string)

  datatype Question = Question(id: int, title: string, shortTitle: string, options: seq<QuestionOption>)

  /** The question catalog, in display (and scan) order. */
  const Questions: seq<Question> := [
    Question(1, "食事の時間は毎日決まっていますか？（朝食抜きや深夜の食事がない）", "規則性", [
      QuestionOption(1, "決まっていない"),
      QuestionOption(2, "ほとんど決まっていない"),
      QuestionOption(3, "時々決まっている"),
      QuestionOption(4, "ほとんど決まっている"),
      QuestionOption(5, "決まっている")]),
    Question(2, "毎食「主食・主菜・副菜」の3点セットを揃えていますか？", "栄養バランス", [
      QuestionOption(1, "揃えていない"),
      QuestionOption(2, "ほとんど揃えていない"),
      QuestionOption(3, "時々揃えている"),
      QuestionOption(4, "ほとんど揃えている"),
      QuestionOption(5, "毎食揃えている")]),
    Question(3, "1食に手のひら両手分（約120g）の野菜を食べていますか？", "野菜摂取", [
      QuestionOption(1, "食べていない"),
      QuestionOption(2, "ほとんど食べていない"),
      QuestionOption(3, "時々食べている"),
      QuestionOption(4, "ほとんど食べている"),
      QuestionOption(5, "毎食食べている")]),
    Question(4, "1食に手のひら片手分（約20g）のたんぱく質を食べていますか？", "たんぱく質", [
      QuestionOption(1, "食べていない"),
      QuestionOption(2, "ほとんど食べていない"),
      QuestionOption(3, "時々食べている"),
      QuestionOption(4, "ほとんど食べている"),
      QuestionOption(5, "毎食食べている")]),
    Question(5, "毎食、満腹になるまで食べず「腹八分目」で終えていますか？", "腹八分目", [
      QuestionOption(1, "満腹以上食べてしまう"),
      QuestionOption(2, "満腹まで食べる"),
      QuestionOption(3, "時々満腹まで食べる"),
      QuestionOption(4, "ほとんど終えている"),
      QuestionOption(5, "終えている")])
  ]

  /** The configured web-app address. It is one string; it is written in
      pieces only so that each piece is short enough to inspect character by
      character. */
  const ScriptUrl: string :=
    "https://script.google.com"
    + "/macros/s/AKfycbxZemRhV8"
    + "fb5Vk0rDvsS_UIjECST892ak"
    + "spCUD9ypGqFIFKo7oVJeNC2r"
    + "5EFLDi5Xe9/exec"

  /** The marker an unconfigured deployment still carries in its address. */
  const UnconfiguredMarker: string := "YOUR_GAS_WEB_APP_URL"

  /** Submissions are skipped when the address still holds the marker. */
  predicate IsConfigured(url: string) {
    !Contains(url, UnconfiguredMarker)
  }

  // ---------------------------------------------------------------------------
  // Lookups
  // ---------------------------------------------------------------------------

  /** `k` is the first option whose value is `v`. */
  predicate FirstOptionWith(options: seq<QuestionOption>, v: int, k: int) {
    && 0 <= k < |options|
    && options[k].value == v
    && forall j :: 0 <= j < k ==> options[j].value != v
  }

  /** `options.find(o => o.value === v)?.label || ''`: the label of the first
      option carrying `v`, or the empty string when no option does. */
  function LabelFor(options: seq<QuestionOption>, v: int): (r: string)
    ensures (forall k :: 0 <= k < |options| ==> options[k].value != v) ==> r == ""
    ensures forall k :: FirstOptionWith(options, v, k) ==> r == options[k].labelText
  {
    if |options| == 0 then ""
    else if options[0].value == v then options[0].labelText
    else
      assert forall k :: FirstOptionWith(options, v, k) ==> FirstOptionWith(options[1..], v, k - 1);
      LabelFor(options[1..], v)
  }

  /** `k` is the first question whose id is `id`. */
  predicate FirstQuestionWith(qs: seq<Question>, id: int, k: int) {
    && 0 <= k < |qs|
    && qs[k].id == id
    && forall j :: 0 <= j < k ==> qs[j].id != id
  }

  /** `questions.find(q => q.id === id)`: the first question with that id. */
  function FindQuestion(qs: seq<Question>, id: int): (r: Option<Question>)
    ensures r.Some? <==> exists i :: 0 <= i < |qs| && qs[i].id == id
    ensures r.Some? ==> exists k :: FirstQuestionWith(qs, id, k) && qs[k] == r.value
  {
    if |qs| == 0 then None
    else if qs[0].id == id then
      assert FirstQuestionWith(qs, id, 0);
      Some(qs[0])
    else
      assert forall i :: 1 <= i < |qs| ==> qs[i] == qs[1..][i - 1];
      assert forall k :: FirstQuestionWith(qs[1..], id, k) ==> FirstQuestionWith(qs, id, k + 1);
      FindQuestion(qs[1..], id)
  }

  /** The ids of `qs`, in order. */
  function Ids(qs: seq<Question>): (r: seq<int>)
    ensures |r| == |qs| && forall i :: 0 <= i < |qs| ==> r[i] == qs[i].id
  {
    if |qs| == 0 then [] else [qs[0].id] + Ids(qs[1..])
  }

  predicate DistinctIds(qs: seq<Question>) {
    forall i, j :: 0 <= i < j < |qs| ==> qs[i].id != qs[j].id
  }

  /** `id` names a question of the catalog. */
  predicate IsQuestionId(id: int) {
    exists i :: 0 <= i < |Questions| && Questions[i].id == id
  }

  /** `v` is the value of one of the options of question `id` — the only
      values the question card reports when an option is clicked. */
  predicate IsOptionValue(id: int, v: int) {
    exists i, k :: 0 <= i < |Questions| && Questions[i].id == id
      && 0 <= k < |Questions[i].options| && Questions[i].options[k].value == v
  }

  // ---------------------------------------------------------------------------
  // Facts about the catalog
  // ---------------------------------------------------------------------------

  /** Five questions with ids 1..5, in ascending order (so distinct). */
  lemma CatalogIds()
    ensures |Questions| == 5
    ensures forall i :: 0 <= i < |Questions| ==> Questions[i].id == i + 1
    ensures DistinctIds(Questions)
  {
  }

  lemma CatalogIdList()
    ensures Ids(Questions) == [1, 2, 3, 4, 5]
  {
    CatalogIds();
  }

  /** Every question offers the values 1..5, in ascending order. */
  lemma CatalogOptionValues()
    ensures forall i :: 0 <= i < |Questions| ==> |Questions[i].options| == 5
    ensures forall i, k :: 0 <= i < |Questions| && 0 <= k < |Questions[i].options| ==>
      Questions[i].options[k].value == k + 1
  {
  }

  /** The question ids are exactly 1..5. */
  lemma QuestionIdRange(id: int)
    ensures IsQuestionId(id) <==> 1 <= id <= 5
  {
    CatalogIds();
    if 1 <= id <= 5 {
      assert Questions[id - 1].id == id;
    }
  }

  /** The selectable (question, value) pairs are exactly 1..5 by 1..5. */
  lemma OptionValueRange(id: int, v: int)
    ensures IsOptionValue(id, v) <==> 1 <= id <= 5 && 1 <= v <= 5
  {
    CatalogIds();
    CatalogOptionValues();
    if 1 <= id <= 5 && 1 <= v <= 5 {
      assert Questions[id - 1].id == id && Questions[id - 1].options[v - 1].value == v;
    }
  }

  /** For every question, the label lookup of a value in 1..5 succeeds and
      yields that option's non-empty label. */
  lemma CatalogLabels(i: int, v: int)
    requires 0 <= i < |Questions| && 1 <= v <= 5
    ensures LabelFor(Questions[i].options, v) == Questions[i].options[v - 1].labelText
    ensures LabelFor(Questions[i].options, v) != ""
  {
    CatalogOptionValues();
    assert FirstOptionWith(Questions[i].options, v, v - 1);
  }

  /** An address that still carries the marker anywhere is unconfigured. */
  lemma PlaceholderUnconfigured(prefix: string, suffix: string)
    ensures !IsConfigured(prefix + UnconfiguredMarker + suffix)
  {
    var s := prefix + UnconfiguredMarker + suffix;
    assert s[|prefix|..|prefix| + |UnconfiguredMarker|] == UnconfiguredMarker;
    assert OccursAt(s, UnconfiguredMarker, |prefix|);
  }

  /** The configured address does not hold the marker, so submissions are
      never skipped. */
  lemma UrlConfigured()
    ensures IsConfigured(ScriptUrl)
  {
    var c := UnconfiguredMarker[0];
    assert c == 'Y';
    var a := "https://script.google.com";
    var b := "/macros/s/AKfycbxZemRhV8";
    var d := "fb5Vk0rDvsS_UIjECST892ak";
    var e := "spCUD9ypGqFIFKo7oVJeNC2r";
    var f := "5EFLDi5Xe9/exec";
    assert Lacks(a, c) && Lacks(b, c) && Lacks(d, c) && Lacks(e, c) && Lacks(f, c);
    LacksConcat(a, b, c);
    LacksConcat(a + b, d, c);
    LacksConcat(a + b + d, e, c);
    LacksConcat(a + b + d + e, f, c);
    LacksFirstCharNotContains(ScriptUrl, UnconfiguredMarker);
  }
}

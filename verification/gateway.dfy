/** The two submissions to the spreadsheet web app (services/api.ts): the
    ordered key/value payloads they build, the skip on an unconfigured
    address, and their opposite error policies. The HTTP transport is an
    outcome parameter; the timestamp is an opaque string. */
module Gateway {
  import opened Optional
  import opened Text
  import opened Catalog
  import opened Scoring
  import opened Consultation

  /** One `formData.append(key, value)`. */
  datatype Entry = Entry(key: string, value: string)

  /** The multipart `FormData` body, as its key/value entries in append order. */
  type Payload = seq<Entry>

  /** What `fetch` did: the request went out, or it threw. */
  datatype Transport = Delivered | NetworkError

  /** What a submission did: the payload it posted, if it got that far, and
      whether an exception reached its caller. */
  datatype CallResult = CallResult(sent: Option<Payload>, raised: bool)

  function Keys(p: Payload): (ks: seq<string>)
    ensures |ks| == |p| && forall i :: 0 <= i < |p| ==> ks[i] == p[i].key
  {
    if |p| == 0 then [] else [p[0].key] + Keys(p[1..])
  }

  predicate DistinctKeys(ks: seq<string>) {
    forall i, j :: 0 <= i < j < |ks| ==> ks[i] != ks[j]
  }

  // ---------------------------------------------------------------------------
  // Diagnosis submission
  // ---------------------------------------------------------------------------

  function ScoreKey(id: int): string {
    "Q" + IntToString(id) + "_score"
  }

  function AnswerKey(id: int): string {
    "Q" + IntToString(id) + "_answer"
  }

  /** The tail of a fully answered list is fully answered, and conversely
      when the head is answered too. */
  lemma AllAnsweredCons(qs: seq<Question>, answers: Answers)
    requires |qs| > 0
    ensures AllAnswered(qs, answers) <==> qs[0].id in answers && AllAnswered(qs[1..], answers)
  {
    assert forall i :: 1 <= i < |qs| ==> qs[i] == qs[1..][i - 1];
  }

  /** `f(q, v), g(q, v)` for each question `q` of `qs` with its stored
      answer `v`, in order; `None` as soon as a question has no answer. */
  function AnsweredPairs<T>(qs: seq<Question>, answers: Answers, f: (Question, int) -> T, g: (Question, int) -> T): (r: Option<seq<T>>)
    ensures r.Some? <==> AllAnswered(qs, answers)
    ensures r.Some? ==> |r.value| == 2 * |qs|
    decreases |qs|
  {
    if |qs| == 0 then Some([])
    else
      AllAnsweredCons(qs, answers);
      var q := qs[0];
      if q.id !in answers then None
      else
        match AnsweredPairs(qs[1..], answers, f, g)
        case None => None
        case Some(rest) => Some([f(q, answers[q.id]), g(q, answers[q.id])] + rest)
  }

  /** Question `i` owns positions 2i and 2i+1. */
  lemma {:induction false} AnsweredPairsAt<T>(qs: seq<Question>, answers: Answers, f: (Question, int) -> T, g: (Question, int) -> T, i: int)
    requires AllAnswered(qs, answers) && 0 <= i < |qs|
    ensures AnsweredPairs(qs, answers, f, g).Some?
    ensures AnsweredPairs(qs, answers, f, g).value[2 * i] == f(qs[i], answers[qs[i].id])
    ensures AnsweredPairs(qs, answers, f, g).value[2 * i + 1] == g(qs[i], answers[qs[i].id])
    decreases |qs|
  {
    AllAnsweredCons(qs, answers);
    var q, tail := qs[0], qs[1..];
    var head := [f(q, answers[q.id]), g(q, answers[q.id])];
    var rest := AnsweredPairs(tail, answers, f, g).value;
    assert AnsweredPairs(qs, answers, f, g).value == head + rest;
    if i > 0 {
      AnsweredPairsAt(tail, answers, f, g, i - 1);
      var m := 2 * (i - 1);
      assert (head + rest)[m + 2] == rest[m];
      assert (head + rest)[m + 3] == rest[m + 1];
      assert tail[i - 1] == qs[i];
    }
  }

  /** The score entry `forEach` appends for question `q` answered with `v`. */
  function ScoreEntry(q: Question, v: int): Entry {
    Entry(ScoreKey(q.id), IntToString(v))
  }

  /** The answer-label entry `forEach` appends for question `q` answered with `v`. */
  function LabelEntry(q: Question, v: int): Entry {
    Entry(AnswerKey(q.id), LabelFor(q.options, v))
  }

  /** The `forEach` over the questions: a score entry and an answer-label
      entry per question, in order. A question without an answer makes
      `val.toString()` throw, which is `None` here. */
  function AnswerEntries(qs: seq<Question>, answers: Answers): (r: Option<Payload>)
    ensures r.Some? <==> AllAnswered(qs, answers)
    ensures r.Some? ==> |r.value| == 2 * |qs|
  {
    AnsweredPairs(qs, answers, ScoreEntry, LabelEntry)
  }

  /** The entries of question `i` sit at positions 2i and 2i+1: its score,
      then the label of the chosen option. */
  lemma AnswerEntriesAt(qs: seq<Question>, answers: Answers, i: int)
    requires AllAnswered(qs, answers) && 0 <= i < |qs|
    ensures AnswerEntries(qs, answers).Some?
    ensures AnswerEntries(qs, answers).value[2 * i] == Entry(ScoreKey(qs[i].id), IntToString(answers[qs[i].id]))
    ensures AnswerEntries(qs, answers).value[2 * i + 1] == Entry(AnswerKey(qs[i].id), LabelFor(qs[i].options, answers[qs[i].id]))
  {
    AnsweredPairsAt(qs, answers, ScoreEntry, LabelEntry, i);
  }

  /** The diagnosis body: type, timestamp, the per-question pairs, the free
      comment; absent exactly when some question is unanswered. */
  function DiagnosisPayload(qs: seq<Question>, answers: Answers, comment: string, timestamp: string): (r: Option<Payload>)
    ensures r.Some? <==> AllAnswered(qs, answers)
    ensures r.Some? ==> |r.value| == 2 * |qs| + 3
  {
    match AnswerEntries(qs, answers)
    case None => None
    case Some(entries) =>
      Some([Entry("type", "diagnosis"), Entry("timestamp", timestamp)] + entries + [Entry("free_comment", comment)])
  }

  /** `submitResultsToGoogleSheet`: nothing happens on an unconfigured
      address; a missing answer throws before anything is sent; otherwise the
      payload is posted and a transport failure is caught and logged, so the
      caller never sees it. */
  function SubmitResults(url: string, answers: Answers, comment: string, timestamp: string, transport: Transport): (r: CallResult)
    ensures !IsConfigured(url) ==> r == CallResult(None, false)
    ensures IsConfigured(url) ==> r.sent == DiagnosisPayload(Questions, answers, comment, timestamp)
    ensures r.raised <==> IsConfigured(url) && !IsComplete(answers)
  {
    if !IsConfigured(url) then CallResult(None, false)
    else
      match DiagnosisPayload(Questions, answers, comment, timestamp)
      case None => CallResult(None, true)
      case Some(p) => CallResult(Some(p), false)
  }

  /** The diagnosis call's result does not depend on what the transport did. */
  lemma SubmitResultsSwallowsTransport(url: string, answers: Answers, comment: string, timestamp: string)
    ensures SubmitResults(url, answers, comment, timestamp, NetworkError)
         == SubmitResults(url, answers, comment, timestamp, Delivered)
  {
  }

  /** Layout of a diagnosis body for complete answers: type, timestamp, a
      (score, label) pair per question in order, then the comment. */
  lemma DiagnosisPayloadLayout(qs: seq<Question>, answers: Answers, comment: string, timestamp: string)
    requires AllAnswered(qs, answers)
    ensures DiagnosisPayload(qs, answers, comment, timestamp).Some?
    ensures var p := DiagnosisPayload(qs, answers, comment, timestamp).value;
      && |p| == 2 * |qs| + 3
      && p[0] == Entry("type", "diagnosis")
      && p[1] == Entry("timestamp", timestamp)
      && (forall i :: 0 <= i < |qs| ==>
            && p[2 * i + 2] == Entry(ScoreKey(qs[i].id), IntToString(answers[qs[i].id]))
            && p[2 * i + 3] == Entry(AnswerKey(qs[i].id), LabelFor(qs[i].options, answers[qs[i].id])))
      && p[|p| - 1] == Entry("free_comment", comment)
  {
    var entries := AnswerEntries(qs, answers).value;
    var p := DiagnosisPayload(qs, answers, comment, timestamp).value;
    assert p == [Entry("type", "diagnosis"), Entry("timestamp", timestamp)] + entries + [Entry("free_comment", comment)];
    assert forall k :: 0 <= k < |entries| ==> p[k + 2] == entries[k];
    forall i | 0 <= i < |qs|
      ensures p[2 * i + 2] == Entry(ScoreKey(qs[i].id), IntToString(answers[qs[i].id]))
      ensures p[2 * i + 3] == Entry(AnswerKey(qs[i].id), LabelFor(qs[i].options, answers[qs[i].id]))
    {
      AnswerEntriesAt(qs, answers, i);
      assert p[2 * i + 2] == entries[2 * i] && p[2 * i + 3] == entries[2 * i + 1];
    }
  }

  /** Every score in a diagnosis body parses back to the stored answer. */
  lemma DiagnosisScoresRecoverable(qs: seq<Question>, answers: Answers, comment: string, timestamp: string, i: int)
    requires AllAnswered(qs, answers) && 0 <= i < |qs|
    ensures DiagnosisPayload(qs, answers, comment, timestamp).Some?
    ensures ParseInt(DiagnosisPayload(qs, answers, comment, timestamp).value[2 * i + 2].value) == Some(answers[qs[i].id])
  {
    DiagnosisPayloadLayout(qs, answers, comment, timestamp);
    ParseIntToString(answers[qs[i].id]);
  }

  /** `f(x), g(x)` for each `x` of `xs`, in order. */
  function Interleave<T>(xs: seq<int>, f: int -> T, g: int -> T): (r: seq<T>)
    ensures |r| == 2 * |xs|
  {
    if |xs| == 0 then [] else [f(xs[0]), g(xs[0])] + Interleave(xs[1..], f, g)
  }

  /** Element `k` of `xs` owns positions 2k and 2k+1. */
  lemma {:induction false} InterleaveAt<T>(xs: seq<int>, f: int -> T, g: int -> T, k: int)
    requires 0 <= k < |xs|
    ensures Interleave(xs, f, g)[2 * k] == f(xs[k])
    ensures Interleave(xs, f, g)[2 * k + 1] == g(xs[k])
    decreases k
  {
    var head := [f(xs[0]), g(xs[0])];
    var rest := Interleave(xs[1..], f, g);
    assert Interleave(xs, f, g) == head + rest;
    if k > 0 {
      InterleaveAt(xs[1..], f, g, k - 1);
      var m := 2 * (k - 1);
      assert (head + rest)[m + 2] == rest[m];
      assert (head + rest)[m + 3] == rest[m + 1];
      assert xs[1..][k - 1] == xs[k];
    }
  }

  /** The keys of the per-question entries for the ids `ids`, in order. */
  function QuestionKeys(ids: seq<int>): (r: seq<string>)
    ensures |r| == 2 * |ids|
  {
    Interleave(ids, ScoreKey, AnswerKey)
  }

  lemma KeysConcat(a: Payload, b: Payload)
    ensures Keys(a + b) == Keys(a) + Keys(b)
  {
    var l, r := Keys(a + b), Keys(a) + Keys(b);
    assert |l| == |r|;
    forall i | 0 <= i < |l|
      ensures l[i] == r[i]
    {
      if i >= |a| {
        assert (a + b)[i] == b[i - |a|];
      }
    }
  }

  /** The keys of the per-question entries are the score and answer keys of
      the question ids, in order. */
  lemma AnswerEntriesKeys(qs: seq<Question>, answers: Answers)
    requires AllAnswered(qs, answers)
    ensures AnswerEntries(qs, answers).Some?
    ensures Keys(AnswerEntries(qs, answers).value) == QuestionKeys(Ids(qs))
  {
    var ks, qk := Keys(AnswerEntries(qs, answers).value), QuestionKeys(Ids(qs));
    forall n | 0 <= n < |ks|
      ensures ks[n] == qk[n]
    {
      AnswerEntryKeyAt(qs, answers, n);
    }
    assert ks == qk;
  }

  /** When the two entry makers' keys depend only on the question id, the
      keys at positions 2i and 2i+1 of the entries are those of the
      interleaved id keys. */
  lemma AnsweredPairsKeysAt(qs: seq<Question>, answers: Answers, f: (Question, int) -> Entry, g: (Question, int) -> Entry,
                            kf: int -> string, kg: int -> string, i: int)
    requires AllAnswered(qs, answers) && 0 <= i < |qs|
    requires forall q: Question, v: int :: f(q, v).key == kf(q.id) && g(q, v).key == kg(q.id)
    ensures AnsweredPairs(qs, answers, f, g).Some?
    ensures Keys(AnsweredPairs(qs, answers, f, g).value)[2 * i] == Interleave(Ids(qs), kf, kg)[2 * i]
    ensures Keys(AnsweredPairs(qs, answers, f, g).value)[2 * i + 1] == Interleave(Ids(qs), kf, kg)[2 * i + 1]
  {
    var q, v := qs[i], answers[qs[i].id];
    assert Ids(qs)[i] == q.id;
    AnsweredPairsAt(qs, answers, f, g, i);
    InterleaveAt(Ids(qs), kf, kg, i);
    assert f(q, v).key == kf(q.id) && g(q, v).key == kg(q.id);
  }

  /** Position `n` of the entries carries the key at position `n` of the
      per-question keys. */
  lemma AnswerEntryKeyAt(qs: seq<Question>, answers: Answers, n: int)
    requires AllAnswered(qs, answers) && 0 <= n < 2 * |qs|
    ensures AnswerEntries(qs, answers).Some?
    ensures Keys(AnswerEntries(qs, answers).value)[n] == QuestionKeys(Ids(qs))[n]
  {
    Halve(n);
    AnsweredPairsKeysAt(qs, answers, ScoreEntry, LabelEntry, ScoreKey, AnswerKey, n / 2);
  }

  /** The keys of a diagnosis body depend only on the question ids. */
  lemma DiagnosisPayloadKeys(qs: seq<Question>, answers: Answers, comment: string, timestamp: string)
    requires AllAnswered(qs, answers)
    ensures DiagnosisPayload(qs, answers, comment, timestamp).Some?
    ensures Keys(DiagnosisPayload(qs, answers, comment, timestamp).value)
         == ["type", "timestamp"] + QuestionKeys(Ids(qs)) + ["free_comment"]
  {
    AnswerEntriesKeys(qs, answers);
    var entries := AnswerEntries(qs, answers).value;
    var front := [Entry("type", "diagnosis"), Entry("timestamp", timestamp)];
    var back := [Entry("free_comment", comment)];
    assert DiagnosisPayload(qs, answers, comment, timestamp).value == front + entries + back;
    KeysConcat(front + entries, back);
    KeysConcat(front, entries);
    assert Keys(front) == ["type", "timestamp"];
    assert Keys(back) == ["free_comment"];
  }

  lemma SmallKeys()
    ensures ScoreKey(1) == "Q1_score" && AnswerKey(1) == "Q1_answer"
    ensures ScoreKey(2) == "Q2_score" && AnswerKey(2) == "Q2_answer"
    ensures ScoreKey(3) == "Q3_score" && AnswerKey(3) == "Q3_answer"
    ensures ScoreKey(4) == "Q4_score" && AnswerKey(4) == "Q4_answer"
    ensures ScoreKey(5) == "Q5_score" && AnswerKey(5) == "Q5_answer"
  {
  }

  /** Interleaving five ids. */
  lemma InterleaveFive<T>(a: int, b: int, c: int, d: int, e: int, f: int -> T, g: int -> T)
    ensures Interleave([a, b, c, d, e], f, g) == [f(a), g(a), f(b), g(b), f(c), g(c), f(d), g(d), f(e), g(e)]
  {
    assert [a, b, c, d, e][1..] == [b, c, d, e];
    assert [b, c, d, e][1..] == [c, d, e];
    assert [c, d, e][1..] == [d, e];
    assert [d, e][1..] == [e];
    var k5 := [f(e), g(e)];
    assert Interleave([e], f, g) == k5;
    var k4 := [f(d), g(d)] + k5;
    assert Interleave([d, e], f, g) == k4;
    var k3 := [f(c), g(c)] + k4;
    assert Interleave([c, d, e], f, g) == k3;
    var k2 := [f(b), g(b)] + k3;
    assert Interleave([b, c, d, e], f, g) == k2;
    assert Interleave([a, b, c, d, e], f, g) == [f(a), g(a)] + k2;
  }

  lemma CatalogQuestionKeys()
    ensures QuestionKeys([1, 2, 3, 4, 5]) == [
      "Q1_score", "Q1_answer", "Q2_score", "Q2_answer", "Q3_score", "Q3_answer",
      "Q4_score", "Q4_answer", "Q5_score", "Q5_answer"]
  {
    SmallKeys();
    InterleaveFive(1, 2, 3, 4, 5, ScoreKey, AnswerKey);
  }

  /** Questions with ids 1..5 give a body of 13 entries, in exactly this key order. */
  lemma DiagnosisKeysForFive(qs: seq<Question>, answers: Answers, comment: string, timestamp: string)
    requires AllAnswered(qs, answers) && Ids(qs) == [1, 2, 3, 4, 5]
    ensures DiagnosisPayload(qs, answers, comment, timestamp).Some?
    ensures Keys(DiagnosisPayload(qs, answers, comment, timestamp).value) == [
      "type", "timestamp",
      "Q1_score", "Q1_answer", "Q2_score", "Q2_answer", "Q3_score", "Q3_answer",
      "Q4_score", "Q4_answer", "Q5_score", "Q5_answer",
      "free_comment"]
  {
    DiagnosisPayloadKeys(qs, answers, comment, timestamp);
    CatalogQuestionKeys();
    Framed("type", "timestamp", "free_comment", "Q1_score", "Q1_answer", "Q2_score", "Q2_answer", "Q3_score",
      "Q3_answer", "Q4_score", "Q4_answer", "Q5_score", "Q5_answer");
  }

  /** Ten middle items framed by two in front and one behind. */
  lemma Framed<T>(x: T, y: T, z: T, a: T, b: T, c: T, d: T, e: T, f: T, g: T, h: T, i: T, j: T)
    ensures [x, y] + [a, b, c, d, e, f, g, h, i, j] + [z] == [x, y, a, b, c, d, e, f, g, h, i, j, z]
  {
  }

  /** For the catalog the body has 13 entries, in exactly this key order. */
  lemma CatalogDiagnosisKeys(answers: Answers, comment: string, timestamp: string)
    requires IsComplete(answers)
    ensures DiagnosisPayload(Questions, answers, comment, timestamp).Some?
    ensures Keys(DiagnosisPayload(Questions, answers, comment, timestamp).value) == [
      "type", "timestamp",
      "Q1_score", "Q1_answer", "Q2_score", "Q2_answer", "Q3_score", "Q3_answer",
      "Q4_score", "Q4_answer", "Q5_score", "Q5_answer",
      "free_comment"]
  {
    CatalogIdList();
    DiagnosisKeysForFive(Questions, answers, comment, timestamp);
  }

  /** For the catalog every answer entry carries the label of the chosen
      option, which is never empty. */
  lemma CatalogDiagnosisLabels(answers: Answers, comment: string, timestamp: string, i: int)
    requires IsComplete(answers) && ValidAnswers(answers) && 0 <= i < |Questions|
    ensures DiagnosisPayload(Questions, answers, comment, timestamp).Some?
    ensures var v := answers[Questions[i].id];
      && 1 <= v <= |Questions[i].options|
      && DiagnosisPayload(Questions, answers, comment, timestamp).value[2 * i + 3].value
         == Questions[i].options[v - 1].labelText != ""
  {
    DiagnosisPayloadLayout(Questions, answers, comment, timestamp);
    ValidRange(answers, Questions[i].id);
    CatalogOptionValues();
    CatalogLabels(i, answers[Questions[i].id]);
  }

  /** Different ids give different score keys. */
  lemma ScoreKeyInjective(a: int, b: int)
    requires a != b
    ensures ScoreKey(a) != ScoreKey(b)
  {
    ParseIntToString(a);
    ParseIntToString(b);
    assert ScoreKey(a)[1..|ScoreKey(a)| - 6] == IntToString(a);
    assert ScoreKey(b)[1..|ScoreKey(b)| - 6] == IntToString(b);
  }

  /** Different ids give different answer keys. */
  lemma AnswerKeyInjective(a: int, b: int)
    requires a != b
    ensures AnswerKey(a) != AnswerKey(b)
  {
    ParseIntToString(a);
    ParseIntToString(b);
    assert AnswerKey(a)[1..|AnswerKey(a)| - 7] == IntToString(a);
    assert AnswerKey(b)[1..|AnswerKey(b)| - 7] == IntToString(b);
  }

  /** A per-question key: non-empty and starting with 'Q', unlike the fixed keys. */
  predicate StartsWithQ(k: string) {
    |k| > 0 && k[0] == 'Q'
  }

  /** Score keys end with 'e' and answer keys with 'r', so the two kinds never
      meet; both start with 'Q'. */
  lemma KeyShapes(a: int, b: int)
    ensures ScoreKey(a) != AnswerKey(b)
    ensures StartsWithQ(ScoreKey(a)) && StartsWithQ(AnswerKey(b))
  {
    var s, t := ScoreKey(a), AnswerKey(b);
    assert s[|s| - 1] == 'e' && t[|t| - 1] == 'r';
  }

  /** Question `k` owns positions 2k (its score key) and 2k+1 (its answer
      key) of the per-question keys. */
  lemma QuestionKeyAt(ids: seq<int>, k: int)
    requires 0 <= k < |ids|
    ensures QuestionKeys(ids)[2 * k] == ScoreKey(ids[k])
    ensures QuestionKeys(ids)[2 * k + 1] == AnswerKey(ids[k])
  {
    InterleaveAt(ids, ScoreKey, AnswerKey, k);
  }

  /** Every per-question key starts with 'Q'. */
  lemma QuestionKeysStartWithQ(ids: seq<int>, i: int)
    requires 0 <= i < |QuestionKeys(ids)|
    ensures StartsWithQ(QuestionKeys(ids)[i])
  {
    var k := i / 2;
    assert i == 2 * k || i == 2 * k + 1;
    QuestionKeyAt(ids, k);
    KeyShapes(ids[k], ids[k]);
  }

  /** Position `i` belongs to question `i / 2`. */
  lemma Halve(i: int)
    requires 0 <= i
    ensures 0 <= i / 2 <= i && (i == 2 * (i / 2) || i == 2 * (i / 2) + 1)
  {
  }

  /** The two keys of question `qi` differ from the two keys of a later
      question `qj` when the ids are distinct. */
  lemma KeysOfDifferentQuestions(ids: seq<int>, qi: int, qj: int)
    requires forall i, j :: 0 <= i < j < |ids| ==> ids[i] != ids[j]
    requires 0 <= qi < qj < |ids|
    ensures QuestionKeys(ids)[2 * qi] != QuestionKeys(ids)[2 * qj]
    ensures QuestionKeys(ids)[2 * qi] != QuestionKeys(ids)[2 * qj + 1]
    ensures QuestionKeys(ids)[2 * qi + 1] != QuestionKeys(ids)[2 * qj]
    ensures QuestionKeys(ids)[2 * qi + 1] != QuestionKeys(ids)[2 * qj + 1]
  {
    QuestionKeyAt(ids, qi);
    QuestionKeyAt(ids, qj);
    var a, b := ids[qi], ids[qj];
    assert a != b;
    ScoreKeyInjective(a, b);
    AnswerKeyInjective(a, b);
    KeyShapes(a, b);
    KeyShapes(b, a);
  }

  /** The score key and the answer key of one question differ. */
  lemma KeysOfSameQuestion(ids: seq<int>, q: int)
    requires 0 <= q < |ids|
    ensures QuestionKeys(ids)[2 * q] != QuestionKeys(ids)[2 * q + 1]
  {
    QuestionKeyAt(ids, q);
    KeyShapes(ids[q], ids[q]);
  }

  /** Two positions of the per-question keys hold different keys when the
      ids are distinct. */
  lemma QuestionKeysDiffer(ids: seq<int>, i: int, j: int)
    requires forall i, j :: 0 <= i < j < |ids| ==> ids[i] != ids[j]
    requires 0 <= i < j < |QuestionKeys(ids)|
    ensures QuestionKeys(ids)[i] != QuestionKeys(ids)[j]
  {
    Halve(i);
    Halve(j);
    var qi, qj := i / 2, j / 2;
    if qi == qj {
      assert i == 2 * qi && j == 2 * qi + 1;
      KeysOfSameQuestion(ids, qi);
    } else {
      assert qi < qj < |ids|;
      KeysOfDifferentQuestions(ids, qi, qj);
    }
  }

  /** Distinct ids give pairwise distinct per-question keys. */
  lemma QuestionKeysDistinct(ids: seq<int>)
    requires forall i, j :: 0 <= i < j < |ids| ==> ids[i] != ids[j]
    ensures DistinctKeys(QuestionKeys(ids))
    ensures forall i :: 0 <= i < |QuestionKeys(ids)| ==> StartsWithQ(QuestionKeys(ids)[i])
  {
    var ks := QuestionKeys(ids);
    forall i | 0 <= i < |ks|
      ensures StartsWithQ(ks[i])
    {
      QuestionKeysStartWithQ(ids, i);
    }
    forall i, j | 0 <= i < j < |ks|
      ensures ks[i] != ks[j]
    {
      QuestionKeysDiffer(ids, i, j);
    }
  }

  /** Framing distinct 'Q' keys with the three fixed keys keeps them distinct. */
  lemma FramedKeysDistinct(qk: seq<string>)
    requires DistinctKeys(qk) && forall i :: 0 <= i < |qk| ==> StartsWithQ(qk[i])
    ensures DistinctKeys(["type", "timestamp"] + qk + ["free_comment"])
  {
    var ks := ["type", "timestamp"] + qk + ["free_comment"];
    assert forall i :: 2 <= i < |ks| - 1 ==> ks[i] == qk[i - 2];
  }

  /** Distinct question ids give a body whose keys are pairwise distinct, so
      no entry shadows another. */
  lemma DiagnosisKeysDistinct(qs: seq<Question>, answers: Answers, comment: string, timestamp: string)
    requires AllAnswered(qs, answers) && DistinctIds(qs)
    ensures DiagnosisPayload(qs, answers, comment, timestamp).Some?
    ensures DistinctKeys(Keys(DiagnosisPayload(qs, answers, comment, timestamp).value))
  {
    DiagnosisPayloadKeys(qs, answers, comment, timestamp);
    var ids := Ids(qs);
    assert forall i, j :: 0 <= i < j < |ids| ==> ids[i] != ids[j];
    QuestionKeysDistinct(ids);
    FramedKeysDistinct(QuestionKeys(ids));
  }

  // ---------------------------------------------------------------------------
  // Consultation submission
  // ---------------------------------------------------------------------------

  /** The consultation body's keys, in append order. */
  const ConsultationKeys: seq<string> := [
    "type", "timestamp",
    "name", "age", "gender", "email", "livingSituation",
    "mealCount", "eatingOutFrequency",
    "medicalHistory", "symptoms", "exerciseHabits",
    "consultationPurpose", "consultationExperience", "content"]

  /** The consultation body: type and timestamp, then every field in a fixed
      order, list fields joined with ", ". */
  function ConsultationPayload(d: ConsultationData, timestamp: string): Payload {
    [ Entry("type", "consultation"),
      Entry("timestamp", timestamp),
      Entry("name", d.name),
      Entry("age", d.age),
      Entry("gender", d.gender),
      Entry("email", d.email),
      Entry("livingSituation", d.livingSituation),
      Entry("mealCount", d.mealCount),
      Entry("eatingOutFrequency", d.eatingOutFrequency),
      Entry("medicalHistory", d.medicalHistory),
      Entry("symptoms", Join(d.symptoms)),
      Entry("exerciseHabits", d.exerciseHabits),
      Entry("consultationPurpose", Join(d.consultationPurpose)),
      Entry("consultationExperience", d.consultationExperience),
      Entry("content", d.content) ]
  }

  /** Reads a consultation body back into the record: the keys must be in
      the fixed order and list fields are split at ", ". */
  function DecodeConsultation(p: Payload): Option<ConsultationData> {
    if Keys(p) == ConsultationKeys && p[0].value == "consultation" then
      Some(ConsultationData(
        p[2].value, p[3].value, p[4].value, p[5].value, p[6].value,
        p[7].value, p[8].value, p[9].value, UnjoinList(p[10].value), p[11].value,
        UnjoinList(p[12].value), p[13].value, p[14].value))
    else None
  }

  /** Every consultation body has the fixed key sequence. */
  lemma ConsultationPayloadKeys(d: ConsultationData, timestamp: string)
    ensures Keys(ConsultationPayload(d, timestamp)) == ConsultationKeys
  {
    var ks := Keys(ConsultationPayload(d, timestamp));
    assert |ks| == |ConsultationKeys|;
  }

  /** The consultation body carries the whole record: decoding it gives the
      record back whenever the list entries are non-empty and comma-free. */
  lemma ConsultationRoundTrip(d: ConsultationData, timestamp: string)
    requires Splittable(d.symptoms) && Splittable(d.consultationPurpose)
    ensures DecodeConsultation(ConsultationPayload(d, timestamp)) == Some(d)
  {
    ConsultationPayloadKeys(d, timestamp);
    UnjoinJoin(d.symptoms);
    UnjoinJoin(d.consultationPurpose);
  }

  /** An empty list field is sent as the empty string. */
  lemma EmptyListSentEmpty(d: ConsultationData, timestamp: string)
    requires d.symptoms == [] && d.consultationPurpose == []
    ensures ConsultationPayload(d, timestamp)[10].value == ""
    ensures ConsultationPayload(d, timestamp)[12].value == ""
  {
  }

  /** `submitConsultationToGoogleSheet`: nothing happens on an unconfigured
      address; otherwise the body is posted and a transport failure is
      rethrown to the caller. */
  function SubmitConsultation(url: string, d: ConsultationData, timestamp: string, transport: Transport): (r: CallResult)
    ensures !IsConfigured(url) ==> r == CallResult(None, false)
    ensures IsConfigured(url) ==> r.sent == Some(ConsultationPayload(d, timestamp))
    ensures r.raised <==> IsConfigured(url) && transport == NetworkError
  {
    if !IsConfigured(url) then CallResult(None, false)
    else CallResult(Some(ConsultationPayload(d, timestamp)), transport == NetworkError)
  }
}

/** The diagnosis computed from the stored answers (App.tsx, `isComplete`
    and `calculateResult`): the total, the weakest question and the
    three-tier rank with its fixed texts. */
module Scoring {
  import opened Optional
  import opened Catalog

  /** Stored answers: question id to the selected option value. */
  type Answers = map<int, int>

  // ---------------------------------------------------------------------------
  // Completeness
  // ---------------------------------------------------------------------------

  /** Every question of `qs` has a stored answer. */
  predicate AllAnswered(qs: seq<Question>, answers: Answers) {
    forall i :: 0 <= i < |qs| ==> qs[i].id in answers
  }

  /** `isComplete`: every catalog question has a stored answer. */
  predicate IsComplete(answers: Answers) {
    AllAnswered(Questions, answers)
  }

  /** Complete means an answer for each of the ids 1..5. */
  lemma IsCompleteKeys(answers: Answers)
    ensures IsComplete(answers) <==> forall id :: 1 <= id <= 5 ==> id in answers
  {
    CatalogIds();
    if forall id :: 1 <= id <= 5 ==> id in answers {
      forall i | 0 <= i < |Questions|
        ensures Questions[i].id in answers
      {
        assert Questions[i].id == i + 1;
      }
    }
    if IsComplete(answers) {
      forall id | 1 <= id <= 5
        ensures id in answers
      {
        assert Questions[id - 1].id == id;
      }
    }
  }

  /** Every stored entry is a (question, option value) pair of the catalog —
      what the question cards can produce. */
  predicate ValidAnswers(answers: Answers) {
    forall k :: k in answers ==> IsOptionValue(k, answers[k])
  }

  /** Every stored key is the id of some question of `qs`. */
  predicate KeysAmong(qs: seq<Question>, answers: Answers) {
    forall k :: k in answers ==> exists i :: 0 <= i < |qs| && qs[i].id == k
  }

  // ---------------------------------------------------------------------------
  // Total
  // ---------------------------------------------------------------------------

  /** `k` is the least element of `s`. */
  predicate IsLeast(k: int, s: set<int>) {
    k in s && forall j :: j in s ==> k <= j
  }

  lemma MinExists(s: set<int>)
    requires s != {}
    ensures exists k :: IsLeast(k, s)
    decreases |s|
  {
    if forall y :: y !in s {
      assert false;
    }
    var x :| x in s;
    var rest := s - {x};
    if rest == {} {
      forall j | j in s
        ensures x <= j
      {
        assert j == x || j in rest;
      }
      assert IsLeast(x, s);
    } else {
      MinExists(rest);
      var k :| IsLeast(k, rest);
      var m := if x < k then x else k;
      forall j | j in s
        ensures m <= j
      {
        if j != x {
          assert j in rest;
        }
      }
      assert IsLeast(m, s);
    }
  }

  /** The least element of a non-empty set of keys. */
  function MinKey(s: set<int>): (k: int)
    requires s != {}
    ensures k in s && forall j :: j in s ==> k <= j
  {
    MinExists(s);
    var k :| IsLeast(k, s);
    k
  }

  /** `Object.values(answers).reduce((a, b) => a + b, 0)`: the sum of every
      stored value. The model adds in ascending key order; `TotalRemove`
      shows that the order does not change the sum, so it need not match
      the order `Object.values` uses. */
  function Total(answers: Answers): int
    decreases answers.Keys
  {
    if answers.Keys == {} then 0
    else
      var k := MinKey(answers.Keys);
      answers[k] + Total(answers - {k})
  }

  /** The sum does not depend on the order: any entry can be taken out first. */
  lemma {:induction false} TotalRemove(answers: Answers, k: int)
    requires k in answers
    ensures Total(answers) == answers[k] + Total(answers - {k})
    decreases answers.Keys
  {
    var m := MinKey(answers.Keys);
    if m != k {
      var rest := answers - {m};
      TotalRemove(rest, k);
      var other := answers - {k};
      assert m in other.Keys;
      assert MinKey(other.Keys) == m;
      assert other - {m} == rest - {k};
    }
  }

  /** Overwriting (or adding) one answer changes the total by exactly the
      difference at that key. */
  lemma TotalUpdate(answers: Answers, k: int, v: int)
    ensures Total(answers[k := v]) == v + Total(answers - {k})
  {
    TotalRemove(answers[k := v], k);
    assert answers[k := v] - {k} == answers - {k};
  }

  /** Reference definition: the answers of `qs` summed in question order,
      an unanswered question counting 0. */
  function SumOver(qs: seq<Question>, answers: Answers): int {
    if |qs| == 0 then 0
    else (if qs[0].id in answers then answers[qs[0].id] else 0) + SumOver(qs[1..], answers)
  }

  lemma {:induction false} SumOverAgree(qs: seq<Question>, a1: Answers, a2: Answers)
    requires forall i :: 0 <= i < |qs| ==> (qs[i].id in a1 <==> qs[i].id in a2)
    requires forall i :: 0 <= i < |qs| && qs[i].id in a1 ==> a1[qs[i].id] == a2[qs[i].id]
    ensures SumOver(qs, a1) == SumOver(qs, a2)
    decreases |qs|
  {
    if |qs| > 0 {
      SumOverAgree(qs[1..], a1, a2);
    }
  }

  /** When every stored key is a question id (ids distinct), the total is the
      per-question sum in catalog order. */
  lemma {:induction false} TotalIsSumOver(qs: seq<Question>, answers: Answers)
    requires DistinctIds(qs) && KeysAmong(qs, answers)
    ensures Total(answers) == SumOver(qs, answers)
    decreases |qs|
  {
    if |qs| == 0 {
      assert answers.Keys == {};
    } else {
      var id := qs[0].id;
      var tail := qs[1..];
      assert DistinctIds(tail);
      assert forall i :: 0 <= i < |tail| ==> tail[i].id != id;
      if id in answers {
        var rest := answers - {id};
        TotalRemove(answers, id);
        forall k | k in rest
          ensures exists i :: 0 <= i < |tail| && tail[i].id == k
        {
          var i :| 0 <= i < |qs| && qs[i].id == k;
          assert i != 0 && tail[i - 1].id == k;
        }
        TotalIsSumOver(tail, rest);
        SumOverAgree(tail, rest, answers);
      } else {
        forall k | k in answers
          ensures exists i :: 0 <= i < |tail| && tail[i].id == k
        {
          var i :| 0 <= i < |qs| && qs[i].id == k;
          assert i != 0 && tail[i - 1].id == k;
        }
        TotalIsSumOver(tail, answers);
      }
    }
  }

  lemma {:induction false} SumOverBounds(qs: seq<Question>, answers: Answers, lo: int, hi: int)
    requires AllAnswered(qs, answers)
    requires forall i :: 0 <= i < |qs| ==> lo <= answers[qs[i].id] <= hi
    ensures lo * |qs| <= SumOver(qs, answers) <= hi * |qs|
    decreases |qs|
  {
    if |qs| > 0 {
      SumOverBounds(qs[1..], answers, lo, hi);
    }
  }

  /** Stored option values are keyed by catalog question ids. */
  lemma ValidKeysAmong(answers: Answers)
    requires ValidAnswers(answers)
    ensures KeysAmong(Questions, answers)
  {
    forall k | k in answers
      ensures exists i :: 0 <= i < |Questions| && Questions[i].id == k
    {
      assert IsOptionValue(k, answers[k]);
    }
  }

  /** Stored option values lie in 1..5. */
  lemma ValidRange(answers: Answers, k: int)
    requires ValidAnswers(answers) && k in answers
    ensures 1 <= answers[k] <= 5
  {
    OptionValueRange(k, answers[k]);
  }

  /** A complete set of option values totals between 5 and 25. */
  lemma TotalBounds(answers: Answers)
    requires IsComplete(answers) && ValidAnswers(answers)
    ensures 5 <= Total(answers) <= 25
  {
    CatalogIds();
    ValidKeysAmong(answers);
    forall i | 0 <= i < |Questions|
      ensures 1 <= answers[Questions[i].id] <= 5
    {
      ValidRange(answers, Questions[i].id);
    }
    TotalBoundsOver(Questions, answers);
  }

  /** Answers in 1..5 for exactly the questions of `qs` total between |qs| and 5|qs|. */
  lemma TotalBoundsOver(qs: seq<Question>, answers: Answers)
    requires DistinctIds(qs) && KeysAmong(qs, answers) && AllAnswered(qs, answers)
    requires forall i :: 0 <= i < |qs| ==> 1 <= answers[qs[i].id] <= 5
    ensures |qs| <= Total(answers) <= 5 * |qs|
  {
    TotalIsSumOver(qs, answers);
    SumOverBounds(qs, answers, 1, 5);
  }

  // ---------------------------------------------------------------------------
  // Weak point
  // ---------------------------------------------------------------------------

  /** Starting minimum of the scan: above every option value. */
  const Sentinel: int := 6

  /** Weak-point id when no answer beats the sentinel; no question has it. */
  const NoWeakPoint: int := 0

  /** The `forEach` scan: an answered question whose value is strictly below
      the running minimum becomes the new minimum and weak point. Returns the
      final (minimum, weak-point id). */
  function ScanWeakest(qs: seq<Question>, answers: Answers, minScore: int, weakId: int): (int, int)
    decreases |qs|
  {
    if |qs| == 0 then (minScore, weakId)
    else if qs[0].id in answers && answers[qs[0].id] < minScore then
      ScanWeakest(qs[1..], answers, answers[qs[0].id], qs[0].id)
    else
      ScanWeakest(qs[1..], answers, minScore, weakId)
  }

  /** No answered question of `qs` is below `bound`. */
  predicate NoneBelow(qs: seq<Question>, answers: Answers, bound: int) {
    forall i :: 0 <= i < |qs| && qs[i].id in answers ==> answers[qs[i].id] >= bound
  }

  /** Question `i` is answered below `bound`, strictly below every earlier
      answered question and no greater than every later one: the minimum,
      with ties going to the first. */
  predicate IsWeakest(qs: seq<Question>, answers: Answers, bound: int, i: int) {
    && 0 <= i < |qs|
    && qs[i].id in answers
    && answers[qs[i].id] < bound
    && (forall j :: 0 <= j < i && qs[j].id in answers ==> answers[qs[j].id] > answers[qs[i].id])
    && (forall j :: i < j < |qs| && qs[j].id in answers ==> answers[qs[j].id] >= answers[qs[i].id])
  }

  /** The scan keeps its starting pair when nothing is below the starting
      minimum, and otherwise ends on the first minimum. */
  lemma {:induction false} ScanWeakestSpec(qs: seq<Question>, answers: Answers, minScore: int, weakId: int)
    ensures NoneBelow(qs, answers, minScore) ==>
      ScanWeakest(qs, answers, minScore, weakId) == (minScore, weakId)
    ensures !NoneBelow(qs, answers, minScore) ==>
      exists i :: IsWeakest(qs, answers, minScore, i)
        && ScanWeakest(qs, answers, minScore, weakId) == (answers[qs[i].id], qs[i].id)
    decreases |qs|
  {
    if |qs| > 0 {
      var q := qs[0];
      var tail := qs[1..];
      if q.id in answers && answers[q.id] < minScore {
        var m := answers[q.id];
        ScanWeakestSpec(tail, answers, m, q.id);
        assert !NoneBelow(qs, answers, minScore) by {
          assert qs[0].id in answers && answers[qs[0].id] < minScore;
        }
        if NoneBelow(tail, answers, m) {
          assert IsWeakest(qs, answers, minScore, 0) by {
            forall j | 0 < j < |qs| && qs[j].id in answers
              ensures answers[qs[j].id] >= m
            {
              assert qs[j] == tail[j - 1];
            }
          }
        } else {
          var i :| IsWeakest(tail, answers, m, i)
            && ScanWeakest(tail, answers, m, q.id) == (answers[tail[i].id], tail[i].id);
          assert IsWeakest(qs, answers, minScore, i + 1) by {
            forall j | 0 <= j < i + 1 && qs[j].id in answers
              ensures answers[qs[j].id] > answers[qs[i + 1].id]
            {
              if j > 0 {
                assert qs[j] == tail[j - 1];
              }
            }
            forall j | i + 1 < j < |qs| && qs[j].id in answers
              ensures answers[qs[j].id] >= answers[qs[i + 1].id]
            {
              assert qs[j] == tail[j - 1];
            }
          }
        }
      } else {
        ScanWeakestSpec(tail, answers, minScore, weakId);
        assert NoneBelow(qs, answers, minScore) <==> NoneBelow(tail, answers, minScore) by {
          if NoneBelow(tail, answers, minScore) {
            forall j | 0 <= j < |qs| && qs[j].id in answers
              ensures answers[qs[j].id] >= minScore
            {
              if j > 0 {
                assert qs[j] == tail[j - 1];
              }
            }
          }
          if NoneBelow(qs, answers, minScore) {
            forall j | 0 <= j < |tail| && tail[j].id in answers
              ensures answers[tail[j].id] >= minScore
            {
              assert tail[j] == qs[j + 1];
            }
          }
        }
        if !NoneBelow(tail, answers, minScore) {
          var i :| IsWeakest(tail, answers, minScore, i)
            && ScanWeakest(tail, answers, minScore, weakId) == (answers[tail[i].id], tail[i].id);
          assert IsWeakest(qs, answers, minScore, i + 1) by {
            forall j | 0 <= j < i + 1 && qs[j].id in answers
              ensures answers[qs[j].id] > answers[qs[i + 1].id]
            {
              if j > 0 {
                assert qs[j] == tail[j - 1];
              }
            }
            forall j | i + 1 < j < |qs| && qs[j].id in answers
              ensures answers[qs[j].id] >= answers[qs[i + 1].id]
            {
              assert qs[j] == tail[j - 1];
            }
          }
        }
      }
    }
  }

  /** There is at most one weakest question. */
  lemma WeakestUnique(qs: seq<Question>, answers: Answers, bound: int, i: int, j: int)
    requires IsWeakest(qs, answers, bound, i) && IsWeakest(qs, answers, bound, j)
    ensures i == j
  {
  }

  /** `weakPointId` after the scan over the catalog. */
  function WeakPointId(answers: Answers): int {
    ScanWeakest(Questions, answers, Sentinel, NoWeakPoint).1
  }

  /** The weak point is the first minimum among answered catalog questions
      below the sentinel, and `NoWeakPoint` when there is none. */
  lemma WeakPointSpec(answers: Answers)
    ensures NoneBelow(Questions, answers, Sentinel) ==> WeakPointId(answers) == NoWeakPoint
    ensures !NoneBelow(Questions, answers, Sentinel) ==>
      exists i :: IsWeakest(Questions, answers, Sentinel, i) && WeakPointId(answers) == Questions[i].id
  {
    ScanWeakestSpec(Questions, answers, Sentinel, NoWeakPoint);
  }

  /** With at least one stored option value the sentinel is beaten, so a weak
      point is always found. */
  lemma WeakPointFound(answers: Answers)
    requires ValidAnswers(answers) && answers != map[]
    ensures !NoneBelow(Questions, answers, Sentinel)
    ensures FindQuestion(Questions, WeakPointId(answers)).Some?
  {
    CatalogIds();
    if forall k :: k !in answers {
      assert false;
    }
    var k :| k in answers;
    OptionValueRange(k, answers[k]);
    assert Questions[k - 1].id == k && answers[Questions[k - 1].id] < Sentinel;
    WeakPointSpec(answers);
  }

  /** Ties go to the lower id: scores {1:3, 2:1, 3:1, 4:4, 5:5} pick question 2. */
  lemma WeakPointTieExample()
    ensures WeakPointId(map[1 := 3, 2 := 1, 3 := 1, 4 := 4, 5 := 5]) == 2
  {
    var answers := map[1 := 3, 2 := 1, 3 := 1, 4 := 4, 5 := 5];
    WeakPointSpec(answers);
    CatalogIdList();
    TieWeakest(Questions, answers);
    var i :| IsWeakest(Questions, answers, Sentinel, i) && WeakPointId(answers) == Questions[i].id;
    WeakestUnique(Questions, answers, Sentinel, i, 1);
  }

  lemma TieWeakest(qs: seq<Question>, answers: Answers)
    requires Ids(qs) == [1, 2, 3, 4, 5] && answers == map[1 := 3, 2 := 1, 3 := 1, 4 := 4, 5 := 5]
    ensures !NoneBelow(qs, answers, Sentinel) && IsWeakest(qs, answers, Sentinel, 1) && qs[1].id == 2
  {
    assert qs[0].id == 1 && qs[1].id == 2 && qs[2].id == 3 && qs[3].id == 4 && qs[4].id == 5;
  }

  // ---------------------------------------------------------------------------
  // Rank
  // ---------------------------------------------------------------------------

  datatype Rank = S | A | B {
    /** Position in the order B < A < S. */
    function Level(): nat {
      match this
      case B => 0
      case A => 1
      case S => 2
    }
  }

  const TopThreshold: int := 22
  const MiddleThreshold: int := 15

  /** The step function: S from 22, A from 15, B below. */
  function RankFor(total: int): (r: Rank)
    ensures r == S <==> total >= TopThreshold
    ensures r == A <==> MiddleThreshold <= total < TopThreshold
    ensures r == B <==> total < MiddleThreshold
  {
    if total >= TopThreshold then S
    else if total >= MiddleThreshold then A
    else B
  }

  /** A higher total never gets a lower rank. */
  lemma RankMonotone(t1: int, t2: int)
    requires t1 <= t2
    ensures RankFor(t1).Level() <= RankFor(t2).Level()
  {
  }

  function MainText(rank: Rank): string {
    match rank
    case S => "素晴らしい！"
    case A => "あともう少し！"
    case B => "改善の余地あり"
  }

  function SubText(rank: Rank): string {
    match rank
    case S => "非常に優秀な食生活です！この調子で現在の習慣を維持しましょう。微調整を行うだけで、さらに健康的な体を手に入れられます。"
    case A => "基本的な意識はできています。あと少し改善すれば完璧です。苦手な部分を意識的にカバーしてみましょう。"
    case B => "食生活が乱れている可能性があります。今のままでは体調や集中力に影響が出るかもしれません。できることから一つずつ始めましょう。"
  }

  /** Each rank has its own headline, so the headline identifies the rank. */
  lemma MainTextIdentifiesRank(r1: Rank, r2: Rank)
    requires MainText(r1) == MainText(r2)
    ensures r1 == r2
  {
  }

  // ---------------------------------------------------------------------------
  // The diagnosis
  // ---------------------------------------------------------------------------

  /** What `calculateResult` returns; the weak point's short title is absent
      when no question was picked. */
  datatype Diagnosis = Diagnosis(total: int, rank: Rank, mainText: string, subText: string, weakPointShort: Option<string>)

  function CalculateResult(answers: Answers): (r: Diagnosis)
    ensures r.total == Total(answers)
    ensures r.rank == RankFor(r.total)
    ensures r.mainText == MainText(r.rank) && r.subText == SubText(r.rank)
    ensures r.weakPointShort.Some? <==> !NoneBelow(Questions, answers, Sentinel)
    ensures r.weakPointShort.Some? ==>
      exists i :: IsWeakest(Questions, answers, Sentinel, i) && r.weakPointShort == Some(Questions[i].shortTitle)
  {
    CatalogIds();
    WeakPointSpec(answers);
    var total := Total(answers);
    var rank := RankFor(total);
    var weak := FindQuestion(Questions, WeakPointId(answers));
    Diagnosis(total, rank, MainText(rank), SubText(rank), if weak.Some? then Some(weak.value.shortTitle) else None)
  }

  /** With no answers: total 0, rank B, no weak point. */
  lemma CalculateResultEmpty()
    ensures CalculateResult(map[]) == Diagnosis(0, B, MainText(B), SubText(B), None)
  {
    assert NoneBelow(Questions, map[], Sentinel);
  }

  /** For a complete set of option values: the total is in 5..25 and the weak
      point is found. */
  lemma CalculateResultComplete(answers: Answers)
    requires IsComplete(answers) && ValidAnswers(answers)
    ensures 5 <= CalculateResult(answers).total <= 25
    ensures CalculateResult(answers).weakPointShort.Some?
  {
    TotalBounds(answers);
    CatalogIds();
    assert Questions[0].id in answers;
    WeakPointFound(answers);
  }
}

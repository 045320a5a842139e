/** Grading of one attempt against the snapshot it pinned (server/internal/attempt/grade.go). */
module Grading {
  import opened Common
  import opened Json

  type QuestionId = nat

  datatype Kind = Single | Multi | TrueFalse | Short

  /** One snapshot question, its points and penalty already resolved against the quiz defaults. */
  datatype Question = Question(id: QuestionId, kind: Kind, correct: Value, points: real, penalty: real)

  /** One attempt_answers row. A cleared answer keeps its row, with no response. */
  datatype Answer = Answer(response: Option<Value>, timeSpentMs: nat, savedAt: int,
                           isCorrect: Option<bool>, pointsAwarded: Option<real>)

  datatype Float = Finite(r: real) | PosInf | NegInf | NaN

  predicate FloatEq(x: Float, y: Float) {
    !x.NaN? && x == y
  }

  /** The library routines short answers are compared with: normalisation of case and white space,
      parsing of a float, and the shortest rendering of a float. Nothing is assumed of them. */
  datatype TextRules = TextRules(normalize: string -> string,
                                 parse: string -> Option<Float>,
                                 format: real -> string)

  // ----- One question -----

  /** What the two passes of sameKeySet decide, for any key list, distinct or not. */
  predicate SelectsKeys(got: seq<string>, want: seq<string>) {
    want != [] && |Elements(got)| == |want| && forall k | k in want :: k in Elements(got)
  }

  method SameKeySet(got: seq<string>, want: seq<string>) returns (same: bool)
    ensures same == SelectsKeys(got, want)
    ensures Distinct(want) && want != [] ==> same == (Elements(got) == Elements(want))
  {
    if want != [] && Distinct(want) {
      SelectsKeysIsSetEquality(got, want);
    }
    if |want| == 0 {
      return false;
    }
    var gotSet: map<string, bool> := map[];
    for i := 0 to |got|
      invariant gotSet.Keys == Elements(got[..i])
      invariant forall k | k in gotSet :: gotSet[k]
    {
      assert got[..i + 1] == got[..i] + [got[i]];
      gotSet := gotSet[got[i] := true];
    }
    assert got[..|got|] == got;
    assert |gotSet| == |gotSet.Keys|;
    if |gotSet| != |want| {
      return false;
    }
    for i := 0 to |want|
      invariant forall k | k in want[..i] :: k in Elements(got)
    {
      if want[i] !in gotSet || !gotSet[want[i]] {
        assert want[i] in want && want[i] !in Elements(got);
        return false;
      }
      assert want[..i + 1] == want[..i] + [want[i]];
    }
    assert want[..|want|] == want;
    return true;
  }

  lemma SameSizeSubset(small: set<string>, big: set<string>)
    requires small <= big && |small| == |big|
    ensures small == big
  {
    assert big == small + (big - small);
    assert |big| == |small| + |big - small|;
  }

  lemma SelectsKeysIsSetEquality(got: seq<string>, want: seq<string>)
    requires want != [] && Distinct(want)
    ensures SelectsKeys(got, want) <==> Elements(got) == Elements(want)
  {
    DistinctCardinality(want);
    if SelectsKeys(got, want) {
      SameSizeSubset(Elements(want), Elements(got));
    }
    if Elements(got) == Elements(want) {
      assert forall k | k in want :: k in Elements(want);
    }
  }

  /** The key comparison is set equality for every response exactly when the key repeats nothing:
      a repeated key rejects even its own list. */
  lemma KeyComparisonIsSetEqualityIff(want: seq<string>)
    requires want != []
    ensures (forall got :: SelectsKeys(got, want) <==> Elements(got) == Elements(want)) <==> Distinct(want)
  {
    if Distinct(want) {
      forall got
        ensures SelectsKeys(got, want) <==> Elements(got) == Elements(want)
      {
        SelectsKeysIsSetEquality(got, want);
      }
    } else {
      DistinctCardinality(want);
      assert !SelectsKeys(want, want);
    }
  }

  /** With a repeated key the comparison also accepts a response that selects one key too many. */
  lemma RepeatedKeyAcceptsWrongSet()
    ensures SelectsKeys(["a", "b"], ["a", "a"])
    ensures Elements(["a", "b"]) != Elements(["a", "a"])
  {
    assert "a" in Elements(["a", "b"]) && "b" in Elements(["a", "b"]) && "b" !in Elements(["a", "a"]);
    DistinctCardinality(["a", "b"]);
  }

  /** The text a short response is compared as: a string as it is, a bare number rendered. */
  function ShortText(rules: TextRules, response: Value): Option<string> {
    match AsString(response)
    case Some(s) => Some(s)
    case None =>
      match AsNumber(response)
      case Some(n) => Some(rules.format(n))
      case None => None
  }

  predicate ShortMatches(rules: TextRules, text: string, accepted: string) {
    var got, want := rules.normalize(text), rules.normalize(accepted);
    || got == want
    || match (rules.parse(got), rules.parse(want))
       case (Some(x), Some(y)) => FloatEq(x, y)
       case _ => false
  }

  predicate MatchesShortAnswer(rules: TextRules, response: Value, accepted: seq<string>) {
    match ShortText(rules, response)
    case Some(text) => exists a | a in accepted :: ShortMatches(rules, text, a)
    case None => false
  }

  predicate IsCorrect(rules: TextRules, q: Question, response: Value) {
    match q.kind
    case Single =>
      AsString(response).Some? && AsString(response) == AsString(q.correct)
    case Multi =>
      && AsStrings(response).Some? && AsStrings(q.correct).Some?
      && SelectsKeys(AsStrings(response).value, AsStrings(q.correct).value)
    case TrueFalse =>
      AsBool(response).Some? && AsBool(response) == AsBool(q.correct)
    case Short =>
      match AsStringListField(q.correct, "accepted")
      case Some(accepted) => MatchesShortAnswer(rules, response, accepted)
      case None => false
  }

  function GradeQuestion(rules: TextRules, q: Question, response: Value): (bool, real) {
    var correct := IsCorrect(rules, q, response);
    (correct, if correct then q.points else -q.penalty)
  }

  // ----- One attempt -----

  type Answers = map<QuestionId, Answer>

  predicate Answered(q: Question, answers: Answers) {
    q.id in answers && answers[q.id].response.Some?
  }

  function Awarded(rules: TextRules, q: Question, answers: Answers): real {
    if Answered(q, answers) then GradeQuestion(rules, q, answers[q.id].response.value).1 else 0.0
  }

  function RawScore(rules: TextRules, qs: seq<Question>, answers: Answers): real {
    if qs == [] then 0.0
    else RawScore(rules, qs[..|qs| - 1], answers) + Awarded(rules, qs[|qs| - 1], answers)
  }

  function Score(rules: TextRules, qs: seq<Question>, answers: Answers): real {
    var raw := RawScore(rules, qs, answers);
    if raw < 0.0 then 0.0 else raw
  }

  function MaxScore(qs: seq<Question>): real {
    if qs == [] then 0.0 else MaxScore(qs[..|qs| - 1]) + qs[|qs| - 1].points
  }

  /** The rows after grading: correctness and points on each answered question, nothing else. */
  function Marked(rules: TextRules, qs: seq<Question>, answers: Answers): (marked: Answers)
    ensures marked.Keys == answers.Keys
    ensures forall k | k in answers :: marked[k].response == answers[k].response
  {
    if qs == [] then answers
    else
      var q := qs[|qs| - 1];
      var before := Marked(rules, qs[..|qs| - 1], answers);
      if Answered(q, answers) then
        var (correct, awarded) := GradeQuestion(rules, q, answers[q.id].response.value);
        before[q.id := before[q.id].(isCorrect := Some(correct), pointsAwarded := Some(awarded))]
      else before
  }

  /** The grading loop: accumulate the score question by question, mark each answered row,
      then floor the total at zero. */
  method GradeAnswers(rules: TextRules, qs: seq<Question>, answers: Answers)
    returns (score: real, rows: Answers)
    ensures score == Score(rules, qs, answers)
    ensures rows == Marked(rules, qs, answers)
  {
    score, rows := 0.0, answers;
    for i := 0 to |qs|
      invariant score == RawScore(rules, qs[..i], answers)
      invariant rows == Marked(rules, qs[..i], answers)
    {
      var q := qs[i];
      assert qs[..i + 1][..i] == qs[..i];
      var answered := q.id in answers;
      if answered && answers[q.id].response.None? {
        answered := false;
      }
      if !answered {
        continue;
      }
      var (correct, awarded) := GradeQuestion(rules, q, answers[q.id].response.value);
      score := score + awarded;
      rows := rows[q.id := rows[q.id].(isCorrect := Some(correct), pointsAwarded := Some(awarded))];
    }
    assert qs[..|qs|] == qs;
    if score < 0.0 {
      score := 0.0;
    }
  }

  // ----- What the score means -----

  /** Answered with what the key holds. */
  predicate Right(rules: TextRules, q: Question, answers: Answers) {
    q.id in answers && answers[q.id].response.Some? && IsCorrect(rules, q, answers[q.id].response.value)
  }

  /** Answered with anything else. */
  predicate Wrong(rules: TextRules, q: Question, answers: Answers) {
    q.id in answers && answers[q.id].response.Some? && !IsCorrect(rules, q, answers[q.id].response.value)
  }

  /** The points of the questions answered right. */
  function Earned(rules: TextRules, qs: seq<Question>, answers: Answers): real {
    if qs == [] then 0.0
    else
      var q := qs[|qs| - 1];
      Earned(rules, qs[..|qs| - 1], answers) + if Right(rules, q, answers) then q.points else 0.0
  }

  /** The penalties of the questions answered wrong. */
  function Forfeited(rules: TextRules, qs: seq<Question>, answers: Answers): real {
    if qs == [] then 0.0
    else
      var q := qs[|qs| - 1];
      Forfeited(rules, qs[..|qs| - 1], answers) + if Wrong(rules, q, answers) then q.penalty else 0.0
  }

  lemma {:induction false} RawIsEarnedLessForfeited(rules: TextRules, qs: seq<Question>, answers: Answers)
    ensures RawScore(rules, qs, answers) == Earned(rules, qs, answers) - Forfeited(rules, qs, answers)
  {
    if qs != [] {
      RawIsEarnedLessForfeited(rules, qs[..|qs| - 1], answers);
    }
  }

  /** The score is what right answers earn less what wrong ones forfeit, and never below zero. */
  lemma ScoreIsEarnedLessForfeited(rules: TextRules, qs: seq<Question>, answers: Answers)
    ensures var raw := Earned(rules, qs, answers) - Forfeited(rules, qs, answers);
            Score(rules, qs, answers) == if raw < 0.0 then 0.0 else raw
  {
    RawIsEarnedLessForfeited(rules, qs, answers);
  }

  /** A short answer is right exactly when its text, or its bare number rendered, agrees with an accepted one:
      in normal form, or as a number where both parse to one. */
  lemma ShortIsRightIff(rules: TextRules, q: Question, response: Value)
    requires q.kind == Short
    ensures IsCorrect(rules, q, response) <==>
            && AsStringListField(q.correct, "accepted").Some?
            && (AsString(response).Some? || AsNumber(response).Some?)
            && var text := if AsString(response).Some? then AsString(response).value
                           else rules.format(AsNumber(response).value);
               exists a | a in AsStringListField(q.correct, "accepted").value ::
                 var got, want := rules.normalize(text), rules.normalize(a);
                 || got == want
                 || (rules.parse(got).Some? && rules.parse(want) == rules.parse(got) && rules.parse(got) != Some(NaN))
  {
  }

  /** The marking scheme the schema's CHECK constraints leave: points and penalties of at least zero. */
  predicate FairMarks(qs: seq<Question>) {
    forall q | q in qs :: q.points >= 0.0 && q.penalty >= 0.0
  }

  lemma {:induction false} RawScoreAtMostMax(rules: TextRules, qs: seq<Question>, answers: Answers)
    requires FairMarks(qs)
    ensures RawScore(rules, qs, answers) <= MaxScore(qs)
    ensures MaxScore(qs) >= 0.0
  {
    if qs != [] {
      assert qs[|qs| - 1] in qs;
      RawScoreAtMostMax(rules, qs[..|qs| - 1], answers);
    }
  }

  lemma ScoreWithinBounds(rules: TextRules, qs: seq<Question>, answers: Answers)
    requires FairMarks(qs)
    ensures 0.0 <= Score(rules, qs, answers) <= MaxScore(qs)
  {
    RawScoreAtMostMax(rules, qs, answers);
  }

  lemma {:induction false} AllCorrectEarnsEverything(rules: TextRules, qs: seq<Question>, answers: Answers)
    requires FairMarks(qs)
    requires forall q | q in qs :: Answered(q, answers) && IsCorrect(rules, q, answers[q.id].response.value)
    ensures RawScore(rules, qs, answers) == MaxScore(qs) == Score(rules, qs, answers)
  {
    RawScoreAtMostMax(rules, qs, answers);
    if qs != [] {
      assert qs[|qs| - 1] in qs;
      AllCorrectEarnsEverything(rules, qs[..|qs| - 1], answers);
    }
  }

  /** A question's award depends on its own row only. */
  lemma {:induction false} RawScoreLocal(rules: TextRules, qs: seq<Question>, a: Answers, b: Answers)
    requires forall q | q in qs :: Awarded(rules, q, a) == Awarded(rules, q, b)
    ensures RawScore(rules, qs, a) == RawScore(rules, qs, b)
  {
    if qs != [] {
      assert qs[|qs| - 1] in qs;
      RawScoreLocal(rules, qs[..|qs| - 1], a, b);
    }
  }

  function Cleared(answers: Answers, id: QuestionId, at: int): Answers {
    answers[id := Answer(None, 0, at, None, None)]
  }

  /** Clearing an answer scores like never having answered. */
  lemma ClearingIsNeverAnswering(rules: TextRules, qs: seq<Question>, answers: Answers, id: QuestionId, at: int)
    ensures Score(rules, qs, Cleared(answers, id, at)) == Score(rules, qs, answers - {id})
  {
    forall q | q in qs
      ensures Awarded(rules, q, Cleared(answers, id, at)) == Awarded(rules, q, answers - {id})
    {
      if q.id != id {
        assert q.id in Cleared(answers, id, at) <==> q.id in answers - {id};
      }
    }
    RawScoreLocal(rules, qs, Cleared(answers, id, at), answers - {id});
  }

  lemma {:induction false} RawScoreMonotone(rules: TextRules, qs: seq<Question>, a: Answers, b: Answers)
    requires forall q | q in qs :: Awarded(rules, q, a) <= Awarded(rules, q, b)
    ensures RawScore(rules, qs, a) <= RawScore(rules, qs, b)
  {
    if qs != [] {
      assert qs[|qs| - 1] in qs;
      RawScoreMonotone(rules, qs[..|qs| - 1], a, b);
    }
  }

  /** Clearing an answer that is wrong wherever its question appears never lowers the score. */
  lemma ClearingWrongNeverLowers(rules: TextRules, qs: seq<Question>, answers: Answers, id: QuestionId, at: int)
    requires FairMarks(qs)
    requires forall q | q in qs && q.id == id && Answered(q, answers) ::
               !IsCorrect(rules, q, answers[id].response.value)
    ensures Score(rules, qs, answers) <= Score(rules, qs, Cleared(answers, id, at))
  {
    RawScoreMonotone(rules, qs, answers, Cleared(answers, id, at));
  }
}

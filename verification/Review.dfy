/** The released review of one graded attempt (server/internal/attempt/results.go). */
module Review {
  import opened Common
  import opened Json
  import opened Grading

  datatype ReviewedQuestion = ReviewedQuestion(id: QuestionId, points: real, response: Option<Value>,
                                               isCorrect: Option<bool>, pointsAwarded: real)

  /** Either the assembled page, or the failure the handler turns into a 500. */
  datatype Assembled = Page(questions: seq<ReviewedQuestion>, maxScore: real) | DecodeFailed(id: QuestionId)

  /** A row whose response was cleared: it is still read, and its empty response does not decode. */
  predicate ClearedRow(q: Question, answers: Answers) {
    q.id in answers && answers[q.id].response.None?
  }

  /** One snapshot question with its row, if it has one; None when the stored response is no JSON. */
  function BuildQuestion(q: Question, answers: Answers): Option<ReviewedQuestion> {
    if q.id !in answers then Some(ReviewedQuestion(q.id, q.points, None, None, 0.0))
    else
      match answers[q.id].response
      case None => None
      case Some(response) =>
        Some(ReviewedQuestion(q.id, q.points, Some(response), Some(answers[q.id].isCorrect.GetOr(false)),
                              answers[q.id].pointsAwarded.GetOr(0.0)))
  }

  method AssembleResultQuestions(qs: seq<Question>, answers: Answers) returns (r: Assembled)
    ensures r.Page? <==> forall q | q in qs :: !ClearedRow(q, answers)
    ensures r.Page? ==> r.maxScore == MaxScore(qs) && |r.questions| == |qs|
    ensures r.Page? ==> forall i | 0 <= i < |qs| :: Some(r.questions[i]) == BuildQuestion(qs[i], answers)
  {
    var result: seq<ReviewedQuestion> := [];
    var maxScore := 0.0;
    for i := 0 to |qs|
      invariant |result| == i && maxScore == MaxScore(qs[..i])
      invariant forall k | 0 <= k < i :: Some(result[k]) == BuildQuestion(qs[k], answers)
    {
      assert qs[..i + 1][..i] == qs[..i];
      match BuildQuestion(qs[i], answers) {
        case None =>
          assert qs[i] in qs;
          return DecodeFailed(qs[i].id);
        case Some(reviewed) =>
          result := result + [reviewed];
      }
      maxScore := maxScore + qs[i].points;
    }
    assert qs[..|qs|] == qs;
    return Page(result, maxScore);
  }

  function AwardedTotal(page: seq<ReviewedQuestion>): real {
    if page == [] then 0.0 else AwardedTotal(page[..|page| - 1]) + page[|page| - 1].pointsAwarded
  }

  predicate DistinctIds(qs: seq<Question>) {
    forall i, j | 0 <= i < j < |qs| :: qs[i].id != qs[j].id
  }

  /** What grading leaves on an answered row: whether it was right, and its points or minus its penalty. */
  predicate MarkedRight(rules: TextRules, q: Question, before: Answers, after: Answers) {
    && q.id in after
    && (Right(rules, q, before) ==>
          after[q.id].isCorrect == Some(true) && after[q.id].pointsAwarded == Some(q.points))
    && (Wrong(rules, q, before) ==>
          after[q.id].isCorrect == Some(false) && after[q.id].pointsAwarded == Some(-q.penalty))
  }

  lemma {:induction false} MarkedRow(rules: TextRules, qs: seq<Question>, answers: Answers, i: nat)
    requires DistinctIds(qs) && i < |qs|
    requires Answered(qs[i], answers)
    ensures MarkedRight(rules, qs[i], answers, Marked(rules, qs, answers))
  {
    if i < |qs| - 1 {
      MarkedRow(rules, qs[..|qs| - 1], answers, i);
    }
  }

  /** Grading writes on no row but those of questions that were answered. */
  lemma {:induction false} UnansweredStays(rules: TextRules, qs: seq<Question>, answers: Answers, id: QuestionId)
    requires id in answers
    requires answers[id].response.None? || forall i | 0 <= i < |qs| :: qs[i].id != id
    ensures id in Marked(rules, qs, answers) && Marked(rules, qs, answers)[id] == answers[id]
  {
    if qs != [] {
      UnansweredStays(rules, qs[..|qs| - 1], answers, id);
    }
  }

  /** Every answered row carries the marks its question gives it. */
  predicate MarksStored(rules: TextRules, qs: seq<Question>, answers: Answers) {
    forall i | 0 <= i < |qs| && Answered(qs[i], answers) :: MarkedRight(rules, qs[i], answers, answers)
  }

  lemma GradingStoresMarks(rules: TextRules, qs: seq<Question>, answers: Answers)
    requires DistinctIds(qs)
    ensures MarksStored(rules, qs, Marked(rules, qs, answers))
  {
    var marked := Marked(rules, qs, answers);
    forall i | 0 <= i < |qs| && Answered(qs[i], marked)
      ensures MarkedRight(rules, qs[i], marked, marked)
    {
      MarkedRow(rules, qs, answers, i);
    }
  }

  lemma {:induction false} ReviewTotalsRawScore(rules: TextRules, qs: seq<Question>, answers: Answers,
                                                page: seq<ReviewedQuestion>)
    requires MarksStored(rules, qs, answers) && |page| == |qs|
    requires forall i | 0 <= i < |qs| :: Some(page[i]) == BuildQuestion(qs[i], answers)
    ensures AwardedTotal(page) == RawScore(rules, qs, answers)
  {
    if qs != [] {
      var n := |qs| - 1;
      assert forall i | 0 <= i < n :: qs[..n][i] == qs[i];
      ReviewTotalsRawScore(rules, qs[..n], answers, page[..n]);
      assert Answered(qs[n], answers) ==> MarkedRight(rules, qs[n], answers, answers);
      assert Some(page[n]) == BuildQuestion(qs[n], answers);
    }
  }

  /** What a page adds up to, floored at zero as the score is. */
  function PageScore(page: seq<ReviewedQuestion>): real {
    if AwardedTotal(page) < 0.0 then 0.0 else AwardedTotal(page)
  }

  /** The review of a graded attempt adds up: its awarded points, floored at zero, are the score. */
  lemma ReviewAddsUpToScore(rules: TextRules, qs: seq<Question>, answers: Answers, page: seq<ReviewedQuestion>)
    requires MarksStored(rules, qs, answers) && |page| == |qs|
    requires forall i | 0 <= i < |qs| :: Some(page[i]) == BuildQuestion(qs[i], answers)
    ensures Score(rules, qs, answers) == PageScore(page)
  {
    ReviewTotalsRawScore(rules, qs, answers, page);
  }

  /** A graded attempt can be reviewed exactly when its student cleared no answer for good: grading
      keeps every row's response, so one cleared row of a snapshot question fails the whole page. */
  lemma GradedAttemptReviewableIff(rules: TextRules, qs: seq<Question>, answers: Answers)
    ensures (forall q | q in qs :: BuildQuestion(q, Marked(rules, qs, answers)).Some?)
            <==> forall q | q in qs :: !ClearedRow(q, answers)
  {
    var marked := Marked(rules, qs, answers);
    forall q | q in qs
      ensures BuildQuestion(q, marked).Some? <==> !ClearedRow(q, answers)
    {
      assert q.id in marked <==> q.id in answers;
    }
  }

  /** The smallest failing input: one true/false question, answered and then cleared. Never
      answering it instead gives the same score and a page. */
  lemma ClearedAnswerBlocksReview(rules: TextRules)
    ensures var q := Question(1, TrueFalse, Bool(true), 1.0, 0.0);
            var saved: Answers := map[1 := Answer(Some(Bool(true)), 10, 5, None, None)];
            && BuildQuestion(q, Marked(rules, [q], saved)).Some?
            && BuildQuestion(q, Marked(rules, [q], Cleared(saved, 1, 6))).None?
            && BuildQuestion(q, Marked(rules, [q], map[])).Some?
            && Score(rules, [q], Cleared(saved, 1, 6)) == Score(rules, [q], map[])
  {
    var q := Question(1, TrueFalse, Bool(true), 1.0, 0.0);
    var saved: Answers := map[1 := Answer(Some(Bool(true)), 10, 5, None, None)];
    assert Marked(rules, [q], Cleared(saved, 1, 6))[1].response == None;
    assert Marked(rules, [q], saved)[1].response == Some(Bool(true));
    ClearingIsNeverAnswering(rules, [q], saved, 1, 6);
    assert saved - {1} == map[];
  }
}

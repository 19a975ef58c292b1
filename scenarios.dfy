/**
 * Whole sessions run through the state machine on the question sets the
 * question source produces.
 *
 * The second part replays a session that starts a second quiz without a Reset. The finished page's
 * footer offers a Home link (NavigatePage(Idle)); from there the user can
 * select a class, subject and topic again. LoadQuestions as written does
 * not clear the score, the answers or the stored result of the previous
 * quiz. The new quiz therefore counts on top of the old score, and since a
 * result is already stored, the auto-submit never fires for it.
 */
module Scenarios {

  import opened Wrappers
  import opened Generator
  import opened QuizSource
  import opened Session

  /** The selection of the replay, up to and including the question set. */
  function Selection(qs: seq<Question>): seq<Action>
  {
    [SelectClass(9), SelectSubject("English"), SelectTopic("Beehive Ch 1"), LoadQuestions(qs)]
  }

  /**
   * A full quiz answered with option 1 throughout (the right answer for
   * every non-Maths question), the submission, the footer's Home link, and
   * the same quiz again.
   */
  function Replay(qs: seq<Question>, result: Payload): seq<Action>
  {
    Selection(qs) + Rounds(Ones(|qs|)) + [SubmitSuccess(result), NavigatePage(Idle)] + Selection(qs) + Rounds(Ones(|qs|))
  }

  lemma {:induction false} AllHits(qs: seq<Question>, choices: seq<int>)
    requires |choices| <= |qs|
    requires forall i :: 0 <= i < |choices| ==> choices[i] == qs[i].correct
    ensures Hits(qs, choices) == |choices|
    decreases |choices|
  {
    if choices != [] {
      AllHits(qs[1..], choices[1..]);
    }
  }

  /** Option 1 for each question. */
  function Ones(n: nat): (choices: seq<int>)
    ensures |choices| == n && forall i :: 0 <= i < n ==> choices[i] == 1
  {
    seq(n, _ => 1)
  }

  /** Answering option 1 throughout a set whose right answer is always option 1: every choice is a hit. */
  lemma OnesHitEverything(qs: seq<Question>)
    requires forall i :: 0 <= i < |qs| ==> WellFormed(qs[i]) && qs[i].correct == 1
    ensures forall j :: 0 <= j < |qs| ==> 0 <= Ones(|qs|)[j] < |qs[j].options|
    ensures Hits(qs, Ones(|qs|)) == |qs|
  {
    AllHits(qs, Ones(|qs|));
  }

  /** The first half of the replay: a full quiz answered correctly, submitted, then Home. */
  lemma FirstQuizThenHome(qs: seq<Question>, result: Payload, corrected: bool) returns (x: State)
    requires |qs| > 0 && forall i :: 0 <= i < |qs| ==> WellFormed(qs[i]) && qs[i].correct == 1
    ensures Run(Initial(), Selection(qs) + Rounds(Ones(|qs|)) + [SubmitSuccess(result), NavigatePage(Idle)], corrected)
            == Some(x)
    ensures x.status == Idle && x.score == |qs| && x.serverResult == Some(result)
  {
    var s0 := Initial();
    OnesHitEverything(qs);
    assert Run(s0, [], corrected) == Some(s0);
    var t;
    t, x := SelectAndLoad(s0, [], s0, 9, "English", "Beehive Ch 1", qs, corrected);
    assert t == Selection(qs);
    assert x.questions[x.index..] == qs;
    t, x := PlayRounds(s0, t, x, Ones(|qs|), corrected);
    assert t == Selection(qs) + Rounds(Ones(|qs|));
    t, x := Extend(s0, t, x, SubmitSuccess(result), corrected);
    t, x := Extend(s0, t, x, NavigatePage(Idle), corrected);
    assert t == Selection(qs) + Rounds(Ones(|qs|)) + [SubmitSuccess(result), NavigatePage(Idle)];
  }

  /**
   * Replaying on either reducer: the first quiz scores full marks and is
   * submitted; after Home and the same quiz again the session awaits
   * submission. As written it holds twice the number of questions as score
   * and the first quiz's stored result, so the auto-submit is not due and
   * the session never finishes. Corrected, the score is the second quiz's
   * own and the auto-submit is due.
   */
  lemma ReplayOnSet(qs: seq<Question>, result: Payload, corrected: bool)
    requires |qs| > 0 && forall i :: 0 <= i < |qs| ==> WellFormed(qs[i]) && qs[i].correct == 1
    ensures var r := Run(Initial(), Replay(qs, result), corrected);
      && r.Some? && r.value.status == SubmittingResult && r.value.questions == qs
      && (!corrected ==> r.value.score == 2 * |qs| && r.value.serverResult == Some(result) && !AutoSubmitDue(r.value))
      && (corrected ==> r.value.score == |qs| && AutoSubmitDue(r.value))
  {
    var s0 := Initial();
    var firstHalf := Selection(qs) + Rounds(Ones(|qs|)) + [SubmitSuccess(result), NavigatePage(Idle)];
    var x := FirstQuizThenHome(qs, result, corrected);
    OnesHitEverything(qs);
    var t;
    t, x := SelectAndLoad(s0, firstHalf, x, 9, "English", "Beehive Ch 1", qs, corrected);
    assert x.questions[x.index..] == qs;
    t, x := PlayRounds(s0, t, x, Ones(|qs|), corrected);
    assert t == Replay(qs, result);
  }

  /**
   * The replay on the question set the source produces for class 9, English,
   * "Beehive Ch 1": 10 points for 5 questions as written, 5 corrected.
   */
  lemma ReplayOutcome(draws: seq<Draw>, result: Payload, corrected: bool)
    requires ValidDraws(draws)
    ensures var qs := QuizSet(9, "English", "Beehive Ch 1", draws);
      var r := Run(Initial(), Replay(qs, result), corrected);
      && r.Some? && r.value.status == SubmittingResult && |r.value.questions| == 5
      && (!corrected ==> r.value.score == 10 && !AutoSubmitDue(r.value))
      && (corrected ==> r.value.score == 5 && AutoSubmitDue(r.value))
  {
    ReplayOnSet(QuizSet(9, "English", "Beehive Ch 1", draws), result, corrected);
  }

  /** As written, the replay ends with a score above the number of questions. */
  lemma ReplayAsWritten(draws: seq<Draw>, result: Payload)
    requires ValidDraws(draws)
    ensures var r := Run(Initial(), Replay(QuizSet(9, "English", "Beehive Ch 1", draws), result), false);
      r.Some? && r.value.score > |r.value.questions| && !AutoSubmitDue(r.value)
  {
    ReplayOutcome(draws, result, false);
  }

  /**
   * The end-to-end run on the quiz set produced for class 9, Maths,
   * "Polynomials", on either reducer: all five questions answered wrongly,
   * submission completed, the session finished with score 0 of 5.
   */
  lemma AllWrongOnQuizSet(draws: seq<Draw>, result: Payload, corrected: bool)
    requires ValidDraws(draws)
    ensures var qs := QuizSet(9, "Maths", "Polynomials", draws);
      var trace := [SelectClass(9), SelectSubject("Maths"), SelectTopic("Polynomials"), LoadQuestions(qs)]
                   + Rounds(WrongChoices(qs)) + [SubmitSuccess(result)];
      var r := Run(Initial(), trace, corrected);
      r.Some? && r.value.status == Finished && r.value.score == 0 && |r.value.questions| == 5
  {
    AllWrongScenario(QuizSet(9, "Maths", "Polynomials", draws), result, corrected);
  }
}

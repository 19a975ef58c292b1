/**
 * The quiz-session state machine of app/page.tsx: the state, the actions,
 * the initial state and the reducer, a total transition function over the
 * ten-valued status tag (partial only where the source itself throws).
 *
 * `Reduce` is the reducer as written. `ReduceCorrected` differs from it
 * only on LoadQuestions, which there also starts a fresh attempt (score,
 * answers and stored result cleared); see the Findings section of the
 * README. The session invariant and the end-to-end scenario are proved for
 * the corrected reducer; the per-action lemmas are about the reducer as
 * written.
 */
module Session {

  import opened Wrappers
  import opened Generator

  datatype Status =
    | Idle | PrivacyPolicy | AboutUs | SelectingSubject | SelectingTopic
    | LoadingQuestions | Active | SubmittingResult | Finished | Error

  /** The stored submission result; the model carries it without looking inside. */
  datatype Payload = Payload(content: string)

  datatype State = State(
    status: Status,
    selectedClass: Option<int>,
    selectedSubject: Option<string>,
    selectedTopic: Option<string>,
    questions: seq<Question>,
    index: nat,
    answers: map<nat, int>,
    timeLeft: int,
    score: nat,
    serverResult: Option<Payload>,
    showExplanation: bool)

  datatype Action =
    | NavigatePage(page: Status)
    | SelectClass(classLevel: int)
    | SelectSubject(subject: string)
    | SelectTopic(topic: string)
    | LoadQuestions(payload: seq<Question>)
    | Tick
    | Answer(choice: int)
    | Next
    | TimeUp
    | SubmitSuccess(result: Payload)
    | GoBack
    | Reset

  function Initial(): State
  {
    State(Idle, None, None, None, [], 0, map[], 0, 0, None, false)
  }

  /**
   * The reducer runs to completion: LoadQuestions reads the first question
   * of its payload and Answer reads the current question, and both throw
   * when that question does not exist.
   */
  predicate Defined(s: State, a: Action)
  {
    match a
    case LoadQuestions(payload) => |payload| > 0
    case Answer(_) => s.index < |s.questions|
    case _ => true
  }

  /** The reducer as written. */
  function Reduce(s: State, a: Action): (r: State)
    requires Defined(s, a)
    ensures r.score <= s.score + 1
    ensures r.score > s.score ==> a.Answer? && a.choice == s.questions[s.index].correct
    ensures r.answers != s.answers ==> a.Answer? || a.Reset?
    ensures r.questions != s.questions ==> a.LoadQuestions? || a.Reset?
    ensures r.status == Error ==> a == NavigatePage(Error) || s.status == Error
  {
    match a
    case NavigatePage(page) => s.(status := page)
    case SelectClass(classLevel) => s.(status := SelectingSubject, selectedClass := Some(classLevel))
    case SelectSubject(subject) => s.(status := SelectingTopic, selectedSubject := Some(subject))
    case SelectTopic(topic) => s.(status := LoadingQuestions, selectedTopic := Some(topic))
    case LoadQuestions(payload) =>
      s.(status := Active, questions := payload, index := 0,
         timeLeft := TimeBudget(payload[0].difficulty), showExplanation := false)
    case Tick => s.(timeLeft := s.timeLeft - 1)
    case Answer(choice) =>
      var isCorrect := choice == s.questions[s.index].correct;
      s.(answers := s.answers[s.index := choice],
         score := if isCorrect then s.score + 1 else s.score,
         showExplanation := true)
    case Next =>
      var nextIndex := s.index + 1;
      if nextIndex >= |s.questions| then s.(status := SubmittingResult)
      else s.(index := nextIndex, timeLeft := TimeBudget(s.questions[nextIndex].difficulty),
              showExplanation := false)
    case TimeUp => s.(showExplanation := true)
    case SubmitSuccess(payload) => s.(status := Finished, serverResult := Some(payload))
    case GoBack =>
      if s.status == PrivacyPolicy || s.status == AboutUs then s.(status := Idle)
      else if s.status == SelectingTopic then s.(status := SelectingSubject, selectedSubject := None)
      else if s.status == SelectingSubject then s.(status := Idle, selectedClass := None)
      else s
    case Reset => Initial()
  }

  /** The reducer with LoadQuestions also starting a fresh attempt. */
  function ReduceCorrected(s: State, a: Action): (r: State)
    requires Defined(s, a)
    ensures a.LoadQuestions? ==> r.score == 0 && r.answers == map[] && r.serverResult == None
    ensures a.LoadQuestions? ==> r.(score := s.score, answers := s.answers, serverResult := s.serverResult) == Reduce(s, a)
    ensures !a.LoadQuestions? ==> r == Reduce(s, a)
  {
    var r := Reduce(s, a);
    if a.LoadQuestions? then r.(score := 0, answers := map[], serverResult := None) else r
  }

  // ---------------------------------------------------------------------
  // What the surroundings dispatch
  // ---------------------------------------------------------------------

  /** The timer effect dispatches TimeUp instead of arming the one-second interval. */
  predicate TimeUpDue(s: State)
  {
    s.status == Active && s.timeLeft <= 0 && !s.showExplanation
  }

  /** The auto-submit effect saves the score and then dispatches SubmitSuccess. */
  predicate AutoSubmitDue(s: State)
  {
    s.status == SubmittingResult && s.serverResult.None?
  }

  /**
   * `a` is an action the views and effects around the reducer dispatch in
   * state `s`: the footer navigates to the home, about and legal pages only;
   * classes come from the 1..12 grid; the loaded payload arrives while
   * loading; ticks come from the interval armed while time remains and no
   * explanation is shown; answer buttons are disabled once the explanation
   * shows; Next sits in the explanation box; SubmitSuccess follows the
   * auto-submit.
   */
  predicate Dispatchable(s: State, a: Action)
  {
    && Defined(s, a)
    && match a
       case NavigatePage(page) => page == Idle || page == AboutUs || page == PrivacyPolicy
       case SelectClass(classLevel) => s.status == Idle && 1 <= classLevel <= 12
       case SelectSubject(_) => s.status == SelectingSubject
       case SelectTopic(_) => s.status == SelectingTopic
       case LoadQuestions(_) => s.status == LoadingQuestions
       case Tick => s.status == Active && !s.showExplanation && s.timeLeft > 0
       case Answer(choice) =>
         s.status == Active && !s.showExplanation && 0 <= choice < |s.questions[s.index].options|
       case Next => s.status == Active && s.showExplanation
       case TimeUp => TimeUpDue(s)
       case SubmitSuccess(_) => AutoSubmitDue(s)
       case GoBack => true
       case Reset => true
  }

  function Step(s: State, a: Action, corrected: bool): State
    requires Defined(s, a)
  {
    if corrected then ReduceCorrected(s, a) else Reduce(s, a)
  }

  /** The state after dispatching `trace` from `s`, or None when some action is not dispatched there. */
  function Run(s: State, trace: seq<Action>, corrected: bool): Option<State>
    decreases |trace|
  {
    if trace == [] then Some(s)
    else
      match Run(s, trace[..|trace| - 1], corrected)
      case None => None
      case Some(x) =>
        var a := trace[|trace| - 1];
        if Dispatchable(x, a) then Some(Step(x, a, corrected)) else None
  }

  /** Dispatching one more action extends a run by one step. */
  lemma Extend(s0: State, t: seq<Action>, x: State, a: Action, corrected: bool) returns (t': seq<Action>, x': State)
    requires Run(s0, t, corrected) == Some(x) && Dispatchable(x, a)
    ensures t' == t + [a] && x' == Step(x, a, corrected)
    ensures Run(s0, t', corrected) == Some(x')
  {
    t', x' := t + [a], Step(x, a, corrected);
    assert t'[..|t'| - 1] == t;
  }

  // ---------------------------------------------------------------------
  // Per-action effects of the reducer as written
  // ---------------------------------------------------------------------

  /** NavigatePage jumps to its page from any status and changes nothing else. */
  lemma NavigateEffect(s: State, page: Status)
    ensures Reduce(s, NavigatePage(page)).status == page
    ensures Reduce(s, NavigatePage(page)).(status := s.status) == s
  {
  }

  /** The selection actions move to the next selection step from any status, recording the selection only. */
  lemma SelectEffects(s: State, classLevel: int, subject: string, topic: string)
    ensures var r := Reduce(s, SelectClass(classLevel));
      r.status == SelectingSubject && r.selectedClass == Some(classLevel) &&
      r.(status := s.status, selectedClass := s.selectedClass) == s
    ensures var r := Reduce(s, SelectSubject(subject));
      r.status == SelectingTopic && r.selectedSubject == Some(subject) &&
      r.(status := s.status, selectedSubject := s.selectedSubject) == s
    ensures var r := Reduce(s, SelectTopic(topic));
      r.status == LoadingQuestions && r.selectedTopic == Some(topic) &&
      r.(status := s.status, selectedTopic := s.selectedTopic) == s
  {
  }

  /**
   * LoadQuestions activates the quiz at its first question with that
   * question's time budget and the explanation hidden; score, answers and
   * the stored result are left as they were.
   */
  lemma LoadQuestionsEffect(s: State, payload: seq<Question>)
    requires |payload| > 0
    ensures var r := Reduce(s, LoadQuestions(payload));
      && r.status == Active && r.questions == payload && r.index == 0 && !r.showExplanation
      && r.timeLeft == TimeBudget(payload[0].difficulty) && 30 <= r.timeLeft <= 60
      && r.score == s.score && r.answers == s.answers && r.serverResult == s.serverResult
      && r.(status := s.status, questions := s.questions, index := s.index,
            timeLeft := s.timeLeft, showExplanation := s.showExplanation) == s
  {
  }

  /**
   * Answer records the choice for the current question, shows the
   * explanation, and adds one to the score exactly when the choice is the
   * correct index; nothing else changes.
   */
  lemma AnswerEffect(s: State, choice: int)
    requires s.index < |s.questions|
    ensures var r := Reduce(s, Answer(choice));
      && r.answers == s.answers[s.index := choice]
      && r.showExplanation
      && (r.score == s.score + 1 <==> choice == s.questions[s.index].correct)
      && (r.score == s.score <==> choice != s.questions[s.index].correct)
      && r.(answers := s.answers, score := s.score, showExplanation := s.showExplanation) == s
  {
  }

  /**
   * The reducer does not guard Answer against a repeat: a second correct
   * answer to the same question scores again. Only the disabled buttons
   * around it prevent this.
   */
  lemma RepeatedAnswerScoresTwice(s: State)
    requires s.index < |s.questions|
    ensures var c := s.questions[s.index].correct;
      Reduce(Reduce(s, Answer(c)), Answer(c)).score == s.score + 2
  {
  }

  /**
   * Next on the last question (or past it) moves to submission leaving the
   * index alone; otherwise it advances to the next question with that
   * question's budget and the explanation hidden.
   */
  lemma NextEffect(s: State)
    ensures var r := Reduce(s, Next);
      s.index + 1 >= |s.questions| ==> r.status == SubmittingResult && r.(status := s.status) == s
    ensures var r := Reduce(s, Next);
      s.index + 1 < |s.questions| ==>
        && r.index == s.index + 1 && !r.showExplanation
        && r.timeLeft == TimeBudget(s.questions[s.index + 1].difficulty)
        && r.(index := s.index, timeLeft := s.timeLeft, showExplanation := s.showExplanation) == s
  {
  }

  /** Tick only takes one second off the clock, with no lower bound. */
  lemma TickEffect(s: State)
    ensures Reduce(s, Tick).timeLeft == s.timeLeft - 1
    ensures Reduce(s, Tick).(timeLeft := s.timeLeft) == s
  {
  }

  /** TimeUp only shows the explanation: no answer is recorded and the score stays. */
  lemma TimeUpEffect(s: State)
    ensures Reduce(s, TimeUp).showExplanation
    ensures Reduce(s, TimeUp).(showExplanation := s.showExplanation) == s
  {
  }

  /** SubmitSuccess finishes the session and stores the payload. */
  lemma SubmitSuccessEffect(s: State, payload: Payload)
    ensures var r := Reduce(s, SubmitSuccess(payload));
      r.status == Finished && r.serverResult == Some(payload) &&
      r.(status := s.status, serverResult := s.serverResult) == s
  {
  }

  /**
   * GoBack leaves the static pages for home, steps from the topic menu back
   * to the subject menu forgetting the subject, steps from the subject menu
   * home forgetting the class, and does nothing anywhere else.
   */
  lemma GoBackEffect(s: State)
    ensures s.status == PrivacyPolicy || s.status == AboutUs ==> Reduce(s, GoBack) == s.(status := Idle)
    ensures s.status == SelectingTopic ==>
      Reduce(s, GoBack) == s.(status := SelectingSubject, selectedSubject := None)
    ensures s.status == SelectingSubject ==> Reduce(s, GoBack) == s.(status := Idle, selectedClass := None)
    ensures s.status !in {PrivacyPolicy, AboutUs, SelectingTopic, SelectingSubject} ==> Reduce(s, GoBack) == s
  {
  }

  /** Reset discards the whole session. */
  lemma ResetEffect(s: State)
    ensures var r := Reduce(s, Reset);
      r == Initial() && r.status == Idle && r.questions == [] && r.answers == map[] &&
      r.score == 0 && r.index == 0 && r.serverResult == None
  {
  }

  /** Every action keeps the index within the question list (at most one past its end). */
  lemma IndexWithinQuestions(s: State, a: Action)
    requires Defined(s, a) && s.index <= |s.questions|
    ensures Reduce(s, a).index <= |Reduce(s, a).questions|
  {
  }

  /**
   * While active, the index points at a question, and every action keeps it
   * so, except navigating straight into the active page (which the footer
   * never does).
   */
  lemma ActiveIndexInBounds(s: State, a: Action)
    requires Defined(s, a) && a != NavigatePage(Active)
    requires s.index <= |s.questions|
    requires s.status == Active ==> s.index < |s.questions|
    ensures var r := Reduce(s, a); r.status == Active ==> r.index < |r.questions|
  {
  }

  // ---------------------------------------------------------------------
  // The session invariant (corrected reducer)
  // ---------------------------------------------------------------------

  /**
   * What holds of every session the application reaches: the error state is
   * never entered; the index points at a question once questions are
   * loaded; answers are recorded only for questions already passed or for
   * the current one once its explanation shows; the score never exceeds the
   * number of answers; the clock never goes below zero; and a quiz in
   * progress or being submitted has no stored result yet.
   */
  ghost predicate SessionInvariant(s: State)
  {
    && s.status != Error
    && (s.questions == [] ==> s.index == 0 && s.answers == map[] && s.score == 0)
    && (s.questions != [] ==> s.index < |s.questions|)
    && (s.status == Active ==> s.questions != [])
    && (forall k :: k in s.answers ==> k < s.index || (k == s.index && s.showExplanation))
    && s.score <= |s.answers|
    && s.timeLeft >= 0
    && (s.status == Active || s.status == SubmittingResult ==> s.serverResult.None?)
  }

  lemma InitialSatisfiesInvariant()
    ensures SessionInvariant(Initial())
  {
  }

  /** Every dispatched action of the corrected reducer keeps the session invariant. */
  lemma CorrectedKeepsInvariant(s: State, a: Action)
    requires SessionInvariant(s) && Dispatchable(s, a)
    ensures SessionInvariant(ReduceCorrected(s, a))
  {
    var r := ReduceCorrected(s, a);
    if a.Answer? {
      assert s.index !in s.answers;
      assert |r.answers| == |s.answers| + 1;
    }
  }

  /** A map whose keys are all below n has at most n entries. */
  lemma {:induction false} BoundedKeys(m: map<nat, int>, n: nat)
    requires forall k :: k in m ==> k < n
    ensures |m| <= n
  {
    if n == 0 {
      assert m == map[];
    } else {
      var m' := m - {n - 1};
      BoundedKeys(m', n - 1);
      assert m.Keys <= m'.Keys + {n - 1};
      assert |m.Keys| <= |m'.Keys + {n - 1}| <= |m'.Keys| + 1;
    }
  }

  /**
   * Under the invariant, answers exist only for questions of the quiz and
   * the score is at most the number of answers, hence at most the number of
   * questions.
   */
  lemma InvariantBoundsScore(s: State)
    requires SessionInvariant(s)
    ensures forall k :: k in s.answers ==> k < |s.questions|
    ensures s.score <= |s.answers| <= |s.questions|
  {
    if s.questions != [] {
      BoundedKeys(s.answers, s.index + 1);
    }
  }

  /**
   * Every run of the corrected reducer from the initial state keeps the
   * invariant: the error state is never reached, the score never exceeds
   * the number of questions, and a session awaiting submission is always
   * due for the auto-submit.
   */
  lemma {:induction false} CorrectedRunsKeepInvariant(trace: seq<Action>)
    ensures var r := Run(Initial(), trace, true);
      r.Some? ==> SessionInvariant(r.value) && r.value.score <= |r.value.questions|
    ensures var r := Run(Initial(), trace, true);
      r.Some? && r.value.status == SubmittingResult ==> AutoSubmitDue(r.value)
    decreases |trace|
  {
    var r := Run(Initial(), trace, true);
    if trace == [] {
      InitialSatisfiesInvariant();
    } else {
      var prefix := trace[..|trace| - 1];
      CorrectedRunsKeepInvariant(prefix);
      match Run(Initial(), prefix, true)
      case None =>
      case Some(x) =>
        var a := trace[|trace| - 1];
        if Dispatchable(x, a) {
          CorrectedKeepsInvariant(x, a);
        }
    }
    if r.Some? {
      InvariantBoundsScore(r.value);
    }
  }

  // ---------------------------------------------------------------------
  // Reachable sessions of the reducer as written
  // ---------------------------------------------------------------------

  /**
   * What holds of every session the application reaches with the reducer
   * as written: the error state is never entered, the index stays within
   * the question list and points at a question while a quiz is active, and
   * the clock never goes below zero.
   */
  ghost predicate WrittenInvariant(s: State)
  {
    && s.status != Error
    && s.index <= |s.questions|
    && (s.status == Active ==> s.index < |s.questions|)
    && s.timeLeft >= 0
  }

  /** Every dispatched action of the reducer as written keeps `WrittenInvariant`. */
  lemma WrittenKeepsInvariant(s: State, a: Action)
    requires WrittenInvariant(s) && Dispatchable(s, a)
    ensures WrittenInvariant(Reduce(s, a))
  {
  }

  /**
   * Every run of the reducer as written from the initial state keeps
   * `WrittenInvariant`: no error page, no active quiz without a current
   * question, no negative clock.
   */
  lemma {:induction false} WrittenRunsKeepInvariant(trace: seq<Action>)
    ensures var r := Run(Initial(), trace, false); r.Some? ==> WrittenInvariant(r.value)
    decreases |trace|
  {
    if trace != [] {
      var prefix := trace[..|trace| - 1];
      WrittenRunsKeepInvariant(prefix);
      match Run(Initial(), prefix, false)
      case None =>
      case Some(x) =>
        var a := trace[|trace| - 1];
        if Dispatchable(x, a) {
          WrittenKeepsInvariant(x, a);
        }
    }
  }

  // ---------------------------------------------------------------------
  // Playing a loaded quiz through
  // ---------------------------------------------------------------------

  /** Answer each question with the given choice, then move on. */
  function Rounds(choices: seq<int>): (t: seq<Action>)
    ensures |t| == 2 * |choices|
  {
    if choices == [] then [] else [Answer(choices[0]), Next] + Rounds(choices[1..])
  }

  /** How many of the choices hit the correct index of the question they answer. */
  function Hits(qs: seq<Question>, choices: seq<int>): (n: nat)
    requires |choices| <= |qs|
    ensures n <= |choices|
  {
    if choices == [] then 0
    else (if choices[0] == qs[0].correct then 1 else 0) + Hits(qs[1..], choices[1..])
  }

  /**
   * From the home screen, choosing a class, a subject and a topic and then
   * receiving the question set starts the quiz at its first question. The
   * corrected reducer starts from a score of zero; the reducer as written
   * keeps the score, answers and stored result the session already had.
   */
  lemma SelectAndLoad(s0: State, t: seq<Action>, x: State, classLevel: int, subject: string, topic: string,
                      qs: seq<Question>, corrected: bool)
    returns (t': seq<Action>, y: State)
    requires Run(s0, t, corrected) == Some(x)
    requires x.status == Idle && 1 <= classLevel <= 12 && |qs| > 0
    ensures t' == t + [SelectClass(classLevel), SelectSubject(subject), SelectTopic(topic), LoadQuestions(qs)]
    ensures Run(s0, t', corrected) == Some(y)
    ensures y.status == Active && y.questions == qs && y.index == 0 && !y.showExplanation
    ensures y.selectedClass == Some(classLevel) && y.selectedSubject == Some(subject) && y.selectedTopic == Some(topic)
    ensures corrected ==> y.score == 0 && y.answers == map[] && y.serverResult == None
    ensures !corrected ==> y.score == x.score && y.answers == x.answers && y.serverResult == x.serverResult
  {
    var t1, x1 := Extend(s0, t, x, SelectClass(classLevel), corrected);
    var t2, x2 := Extend(s0, t1, x1, SelectSubject(subject), corrected);
    var t3, x3 := Extend(s0, t2, x2, SelectTopic(topic), corrected);
    t', y := Extend(s0, t3, x3, LoadQuestions(qs), corrected);
  }

  /**
   * One round on an active question with the explanation hidden: answer,
   * then move on. The score rises by one exactly on a hit; the quiz moves to
   * the next question, or to submission after the last one.
   */
  lemma AnswerThenNext(s0: State, t: seq<Action>, x: State, choice: int, corrected: bool)
    returns (t': seq<Action>, y: State)
    requires Run(s0, t, corrected) == Some(x)
    requires x.status == Active && !x.showExplanation && x.index < |x.questions|
    requires 0 <= choice < |x.questions[x.index].options|
    ensures t' == t + [Answer(choice), Next] && Run(s0, t', corrected) == Some(y)
    ensures y.score == x.score + (if choice == x.questions[x.index].correct then 1 else 0)
    ensures x.index + 1 < |x.questions| ==> y.status == Active && y.index == x.index + 1 && !y.showExplanation
    ensures x.index + 1 >= |x.questions| ==> y.status == SubmittingResult
    ensures y.questions == x.questions && y.serverResult == x.serverResult
    ensures y.selectedClass == x.selectedClass && y.selectedSubject == x.selectedSubject
    ensures y.selectedTopic == x.selectedTopic
  {
    var t1, x1 := Extend(s0, t, x, Answer(choice), corrected);
    t', y := Extend(s0, t1, x1, Next, corrected);
  }

  lemma RoundsStep(t: seq<Action>, choices: seq<int>)
    requires |choices| > 0
    ensures t + Rounds(choices) == t + [Answer(choices[0]), Next] + Rounds(choices[1..])
  {
  }

  lemma HitsStep(qs: seq<Question>, i: nat, choices: seq<int>)
    requires i < |qs| && |choices| == |qs| - i && |choices| > 0
    ensures Hits(qs[i..], choices) ==
      (if choices[0] == qs[i].correct then 1 else 0) + Hits(qs[i + 1..], choices[1..])
  {
    assert qs[i..][0] == qs[i];
    assert qs[i..][1..] == qs[i + 1..];
  }

  /**
   * From question i of an active quiz with the explanation hidden, answering
   * every remaining question and moving on reaches submission, with the
   * score raised by the number of hits and the questions, selection and
   * stored result untouched. This holds for both reducers.
   */
  lemma {:induction false} PlayRounds(s0: State, t: seq<Action>, x: State, choices: seq<int>, corrected: bool)
    returns (t': seq<Action>, y: State)
    requires Run(s0, t, corrected) == Some(x)
    requires x.status == Active && !x.showExplanation
    requires x.index < |x.questions| && |choices| == |x.questions| - x.index
    requires forall j :: 0 <= j < |choices| ==> 0 <= choices[j] < |x.questions[x.index + j].options|
    ensures t' == t + Rounds(choices) && Run(s0, t', corrected) == Some(y)
    ensures y.status == SubmittingResult
    ensures y.score == x.score + Hits(x.questions[x.index..], choices)
    ensures y.questions == x.questions && y.serverResult == x.serverResult
    ensures y.selectedClass == x.selectedClass && y.selectedSubject == x.selectedSubject
    ensures y.selectedTopic == x.selectedTopic
    decreases |choices|
  {
    var t2, x2 := AnswerThenNext(s0, t, x, choices[0], corrected);
    RoundsStep(t, choices);
    HitsStep(x.questions, x.index, choices);
    if |choices| == 1 {
      t', y := t2, x2;
    } else {
      forall j | 0 <= j < |choices| - 1
        ensures 0 <= choices[1..][j] < |x2.questions[x2.index + j].options|
      {
        assert choices[1..][j] == choices[j + 1];
      }
      t', y := PlayRounds(s0, t2, x2, choices[1..], corrected);
    }
  }

  // ---------------------------------------------------------------------
  // Scenarios
  // ---------------------------------------------------------------------

  /** For each question, an option index other than the correct one. */
  function WrongChoices(qs: seq<Question>): (choices: seq<int>)
    requires forall i :: 0 <= i < |qs| ==> WellFormed(qs[i])
    ensures |choices| == |qs|
    ensures forall i :: 0 <= i < |qs| ==> 0 <= choices[i] < |qs[i].options| && choices[i] != qs[i].correct
  {
    var choices := seq(|qs|, i requires 0 <= i < |qs| => if qs[i].correct == 3 then 0 else qs[i].correct + 1);
    assert forall i :: 0 <= i < |qs| ==> WellFormed(qs[i]) && |qs[i].options| == 4;
    choices
  }

  lemma {:induction false} NoHits(qs: seq<Question>, choices: seq<int>)
    requires |choices| <= |qs|
    requires forall i :: 0 <= i < |choices| ==> choices[i] != qs[i].correct
    ensures Hits(qs, choices) == 0
    decreases |choices|
  {
    if choices != [] {
      NoHits(qs[1..], choices[1..]);
    }
  }

  /**
   * The end-to-end run, on either reducer: choose class 9, Maths and
   * Polynomials, load a set of well-formed questions, answer every one of
   * them wrongly, and let the submission complete: the session is finished
   * with score 0.
   */
  lemma AllWrongScenario(qs: seq<Question>, result: Payload, corrected: bool)
    requires |qs| > 0 && forall i :: 0 <= i < |qs| ==> WellFormed(qs[i])
    ensures var trace := [SelectClass(9), SelectSubject("Maths"), SelectTopic("Polynomials"), LoadQuestions(qs)]
                         + Rounds(WrongChoices(qs)) + [SubmitSuccess(result)];
      var r := Run(Initial(), trace, corrected);
      r.Some? && r.value.status == Finished && r.value.score == 0 && r.value.questions == qs &&
      r.value.selectedClass == Some(9) && r.value.selectedSubject == Some("Maths") &&
      r.value.selectedTopic == Some("Polynomials")
  {
    var s0 := Initial();
    var selection := [SelectClass(9), SelectSubject("Maths"), SelectTopic("Polynomials"), LoadQuestions(qs)];
    var choices := WrongChoices(qs);
    assert Run(s0, [], corrected) == Some(s0);
    var t, x := SelectAndLoad(s0, [], s0, 9, "Maths", "Polynomials", qs, corrected);
    assert t == selection;
    assert x.questions[x.index..] == qs;
    t, x := PlayRounds(s0, t, x, choices, corrected);
    NoHits(qs, choices);
    t, x := Extend(s0, t, x, SubmitSuccess(result), corrected);
    assert t == selection + Rounds(choices) + [SubmitSuccess(result)];
  }
}

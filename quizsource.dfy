/**
 * The question source of app/page.tsx (`api.fetchQuestions`): five
 * questions along a fixed difficulty curve, each from the arithmetic
 * generator when the subject is "Maths" and from the template generator
 * otherwise. The simulated network latency is not part of the model.
 */
module QuizSource {

  import opened Generator

  /** The difficulty curve every quiz follows. */
  function Curve(): seq<Difficulty>
  {
    [Easy, Easy, Medium, Medium, Hard]
  }

  /** The curve never steps down in difficulty. */
  lemma CurveNonDecreasing()
    ensures forall i, j :: 0 <= i <= j < |Curve()| ==> Rank(Curve()[i]) <= Rank(Curve()[j])
  {
    var c := Curve();
    assert Rank(c[0]) == 0 && Rank(c[1]) == 0 && Rank(c[2]) == 1 && Rank(c[3]) == 1 && Rank(c[4]) == 2;
  }

  /** The random values and the id one question of the quiz consumes. */
  datatype Draw = Draw(id: string, math: MathDraws, pick: int)

  predicate ValidDraw(d: Draw, level: Difficulty)
  {
    ValidMathDraws(level, d.math) && Drawn(d.pick, 0, 2)
  }

  /** One draw per slot of the curve, each valid for that slot's difficulty. */
  predicate ValidDraws(draws: seq<Draw>)
  {
    |draws| == |Curve()| && forall i :: 0 <= i < |Curve()| ==> ValidDraw(draws[i], Curve()[i])
  }

  /**
   * `q` fits its slot of the quiz: well-formed, for the chosen class, subject
   * and topic at the slot's difficulty, arithmetic exactly when the subject
   * is "Maths", and otherwise with the right answer in option 1.
   */
  predicate FitsSlot(q: Question, classLevel: int, subject: string, topic: string, level: Difficulty)
  {
    && WellFormed(q)
    && q.classNo == classLevel && q.subject == subject && q.chapter == topic && q.difficulty == level
    && (q.prompt.ArithmeticPrompt? <==> subject == "Maths")
    && (subject != "Maths" ==> q.correct == 1)
  }

  /** The question built for one slot: subject dispatch between the two generators. */
  function QuestionFor(classLevel: int, subject: string, topic: string, level: Difficulty, d: Draw): (q: Question)
    requires ValidDraw(d, level)
    ensures FitsSlot(q, classLevel, subject, topic, level)
  {
    if subject == "Maths" then GenerateMath(classLevel, topic, level, d.id, d.math)
    else GenerateGeneric(classLevel, subject, topic, level, d.id, d.pick)
  }

  /**
   * The quiz set: exactly five well-formed questions for the chosen class,
   * subject and topic, their difficulties following the curve (so never
   * decreasing), arithmetic exactly when the subject is "Maths".
   */
  function QuizSet(classLevel: int, subject: string, topic: string, draws: seq<Draw>): (qs: seq<Question>)
    requires ValidDraws(draws)
    ensures |qs| == 5
    ensures forall i :: 0 <= i < 5 ==> FitsSlot(qs[i], classLevel, subject, topic, Curve()[i])
    ensures forall i, j :: 0 <= i <= j < 5 ==> Rank(qs[i].difficulty) <= Rank(qs[j].difficulty)
  {
    CurveNonDecreasing();
    var qs := seq(5, i requires 0 <= i < 5 => QuestionFor(classLevel, subject, topic, Curve()[i], draws[i]));
    assert forall i :: 0 <= i < 5 ==> FitsSlot(qs[i], classLevel, subject, topic, Curve()[i]);
    qs
  }

  /** The loop of `fetchQuestions`: one question pushed per difficulty of the curve. */
  method BuildQuizSet(classLevel: int, subject: string, topic: string, draws: seq<Draw>) returns (questions: seq<Question>)
    requires ValidDraws(draws)
    ensures questions == QuizSet(classLevel, subject, topic, draws)
  {
    var levels := Curve();
    ghost var spec := QuizSet(classLevel, subject, topic, draws);
    questions := [];
    for i := 0 to |levels|
      invariant questions == spec[..i]
    {
      var level := levels[i];
      var q;
      if subject == "Maths" {
        q := GenerateMath(classLevel, topic, level, draws[i].id, draws[i].math);
      } else {
        q := GenerateGeneric(classLevel, subject, topic, level, draws[i].id, draws[i].pick);
      }
      assert q == spec[i];
      questions := questions + [q];
    }
    assert spec[..5] == spec;
  }
}

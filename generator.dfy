/**
 * The procedural question generator of app/page.tsx: the difficulty time
 * table, the arithmetic generator used for Maths and the template generator
 * used for every other subject.
 *
 * The generator's randomness (`rand(min, max)` and the random-comparator
 * `shuffle`) is taken as parameters: a drawn integer is constrained to the
 * range `rand` was asked for, and a shuffle is an arbitrary permutation of
 * the four candidate positions. The generated `id` is a parameter too.
 */
module Generator {

  datatype Difficulty = Easy | Medium | Hard

  /** Position of a difficulty on the scale easy < medium < hard. */
  function Rank(d: Difficulty): nat
  {
    match d
    case Easy => 0
    case Medium => 1
    case Hard => 2
  }

  /** Seconds allowed for one question of the given difficulty. */
  function TimeBudget(d: Difficulty): (seconds: nat)
    ensures seconds == 30 + 15 * Rank(d)
  {
    match d
    case Easy => 30
    case Medium => 45
    case Hard => 60
  }

  /** The arithmetic operation a Maths question asks for. */
  datatype Op = Subtract | Multiply | Add

  /** One answer option as shown to the user: a rendered number or a fixed label. */
  datatype Choice = Number(value: int) | Label(text: string)

  /** Question text: the arithmetic template filled with its operands, or literal text. */
  datatype Prompt =
    | ArithmeticPrompt(op: Op, a: int, b: int)
    | TextPrompt(text: string)

  /** Explanation text: the arithmetic template filled with operands and result, or literal text. */
  datatype Explanation =
    | ArithmeticExplanation(op: Op, a: int, b: int, result: int)
    | TextExplanation(text: string)

  datatype Question = Question(
    id: string,
    classNo: int,
    subject: string,
    chapter: string,
    prompt: Prompt,
    options: seq<Choice>,
    correct: int,
    difficulty: Difficulty,
    explanation: Explanation)

  predicate Distinct<T(==)>(s: seq<T>)
  {
    forall i, j :: 0 <= i < j < |s| ==> s[i] != s[j]
  }

  /** The shape every generated question has: four different options and a correct index among them. */
  predicate WellFormed(q: Question)
  {
    |q.options| == 4 && 0 <= q.correct < 4 && Distinct(q.options)
  }

  // ---------------------------------------------------------------------
  // String search and the operation chosen from the chapter name
  // ---------------------------------------------------------------------

  /** `pat` occurs in `s` starting at position `i`. */
  predicate OccursAt(s: string, pat: string, i: nat)
  {
    i + |pat| <= |s| && s[i..i + |pat|] == pat
  }

  /** `s.includes(pat)`: `pat` occurs in `s` at some position. */
  function Contains(s: string, pat: string): (r: bool)
    ensures r <==> exists i: nat :: OccursAt(s, pat, i)
    decreases |s|
  {
    if |s| < |pat| then false
    else if s[..|pat|] == pat then assert OccursAt(s, pat, 0); true
    else
      assert forall i: nat :: OccursAt(s, pat, i + 1) <==> OccursAt(s[1..], pat, i);
      assert !OccursAt(s, pat, 0);
      assert forall i: nat :: OccursAt(s, pat, i) ==> i == 0 || OccursAt(s[1..], pat, i - 1);
      Contains(s[1..], pat)
  }

  /** Whatever surrounds it, a string occurs in a concatenation that has it in the middle. */
  lemma ContainsInfix(pre: string, mid: string, post: string)
    ensures Contains(pre + mid + post, mid)
  {
    var s := pre + mid + post;
    assert OccursAt(s, mid, |pre|);
  }

  /** The operation selected by keywords of the chapter name; "Subtraction" is tested first. */
  function OperationFor(chapter: string): (op: Op)
    ensures op == Subtract <==> Contains(chapter, "Subtraction")
    ensures op == Multiply <==>
      !Contains(chapter, "Subtraction") && (Contains(chapter, "Multiplication") || Contains(chapter, "Calculus"))
    ensures op == Add <==>
      !Contains(chapter, "Subtraction") && !Contains(chapter, "Multiplication") && !Contains(chapter, "Calculus")
  {
    if Contains(chapter, "Subtraction") then Subtract
    else if Contains(chapter, "Multiplication") || Contains(chapter, "Calculus") then Multiply
    else Add
  }

  function Apply(op: Op, a: int, b: int): int
  {
    match op
    case Subtract => a - b
    case Multiply => a * b
    case Add => a + b
  }

  // ---------------------------------------------------------------------
  // Random draws
  // ---------------------------------------------------------------------

  /** `rand(lo, hi)` returned `x`: an integer between the bounds, both included. */
  predicate Drawn(x: int, lo: int, hi: int)
  {
    lo <= x <= hi
  }

  /** The operand ranges per difficulty. */
  predicate OperandsDrawn(level: Difficulty, a: int, b: int)
  {
    match level
    case Easy => Drawn(a, 1, 10) && Drawn(b, 1, 10)
    case Medium => Drawn(a, 10, 50) && Drawn(b, 10, 50)
    case Hard => Drawn(a, 50, 100) && Drawn(b, 20, 80)
  }

  /** `order` lists each of the positions 0 .. n-1 exactly once. */
  predicate IsPermutation(order: seq<int>, n: nat)
  {
    && |order| == n
    && (forall i :: 0 <= i < n ==> 0 <= order[i] < n)
    && (forall i, j :: 0 <= i < j < n ==> order[i] != order[j])
  }

  /**
   * The random values one Maths question consumes, in the order the source
   * draws them: the two operands, the three distractor offsets and the
   * permutation the shuffle applied.
   */
  datatype MathDraws = MathDraws(a: int, b: int, above: int, below: int, farAbove: int, order: seq<int>)

  predicate ValidMathDraws(level: Difficulty, d: MathDraws)
  {
    && OperandsDrawn(level, d.a, d.b)
    && Drawn(d.above, 1, 5)
    && Drawn(d.below, 1, 5)
    && Drawn(d.farAbove, 6, 10)
    && IsPermutation(d.order, 4)
  }

  /** The true answer followed by its three distractors, before shuffling. */
  function Candidates(answer: int, d: MathDraws): seq<int>
  {
    [answer, answer + d.above, answer - d.below, answer + d.farAbove]
  }

  /** The shuffle: position i of the result holds element order[i] of the input. */
  function Permute(xs: seq<int>, order: seq<int>): (r: seq<int>)
    requires IsPermutation(order, |xs|)
    ensures |r| == |xs|
    ensures forall i :: 0 <= i < |xs| ==> r[i] == xs[order[i]]
  {
    seq(|xs|, i requires 0 <= i < |xs| => xs[order[i]])
  }

  /** A permutation of four positions reaches every position. */
  lemma PermutationOnto(order: seq<int>, j: int)
    requires IsPermutation(order, 4)
    requires 0 <= j < 4
    ensures exists k :: 0 <= k < 4 && order[k] == j
  {
    assert order[0] == j || order[1] == j || order[2] == j || order[3] == j;
  }

  /** Shuffling keeps every element and introduces no repetition. */
  lemma PermuteKeepsElements(xs: seq<int>, order: seq<int>)
    requires |xs| == 4 && IsPermutation(order, 4)
    requires Distinct(xs)
    ensures Distinct(Permute(xs, order))
    ensures forall x :: x in Permute(xs, order) <==> x in xs
  {
    var r := Permute(xs, order);
    forall x | x in xs
      ensures x in r
    {
      var j :| 0 <= j < 4 && xs[j] == x;
      PermutationOnto(order, j);
      var k :| 0 <= k < 4 && order[k] == j;
      assert r[k] == x;
    }
  }

  /** `arr.indexOf(x)`: the first position holding `x`, or -1 when there is none. */
  function IndexOf(s: seq<int>, x: int): (r: int)
    ensures -1 <= r < |s|
    ensures r == -1 <==> x !in s
    ensures 0 <= r ==> s[r] == x && forall j :: 0 <= j < r ==> s[j] != x
  {
    if s == [] then -1
    else if s[0] == x then 0
    else
      var k := IndexOf(s[1..], x);
      if k == -1 then -1 else k + 1
  }

  /** `options.map(String)`: every number rendered as an option. */
  function Numbers(xs: seq<int>): (r: seq<Choice>)
    ensures |r| == |xs|
    ensures forall i :: 0 <= i < |xs| ==> r[i] == Number(xs[i])
    ensures forall x :: Number(x) in r <==> x in xs
  {
    seq(|xs|, i requires 0 <= i < |xs| => Number(xs[i]))
  }

  // ---------------------------------------------------------------------
  // The two generators
  // ---------------------------------------------------------------------

  /**
   * An arithmetic question for a Maths chapter: operands from the
   * difficulty's ranges, the operation from the chapter name, the answer and
   * three distractors shuffled, and `correct` recovered as the position of
   * the answer.
   */
  function GenerateMath(classNo: int, chapter: string, level: Difficulty, id: string, d: MathDraws): (q: Question)
    requires ValidMathDraws(level, d)
    ensures WellFormed(q)
    ensures q.id == id && q.classNo == classNo && q.subject == "Maths" && q.chapter == chapter && q.difficulty == level
    ensures q.prompt == ArithmeticPrompt(OperationFor(chapter), d.a, d.b)
    ensures OperandsDrawn(level, q.prompt.a, q.prompt.b)
    ensures q.explanation.ArithmeticExplanation?
    ensures q.explanation.op == q.prompt.op && q.explanation.a == q.prompt.a && q.explanation.b == q.prompt.b
    ensures q.explanation.result == Apply(q.prompt.op, q.prompt.a, q.prompt.b)
    ensures q.options[q.correct] == Number(q.explanation.result)
    ensures forall i :: 0 <= i < 4 ==> q.options[i].Number?
    ensures forall x :: Number(x) in q.options <==> x in Candidates(q.explanation.result, d)
  {
    var op := OperationFor(chapter);
    var answer := Apply(op, d.a, d.b);
    var candidates := Candidates(answer, d);
    PermuteKeepsElements(candidates, d.order);
    var shuffled := Permute(candidates, d.order);
    Question(id, classNo, "Maths", chapter, ArithmeticPrompt(op, d.a, d.b), Numbers(shuffled),
             IndexOf(shuffled, answer), level, ArithmeticExplanation(op, d.a, d.b, answer))
  }

  /** One entry of the generic template catalogue. */
  datatype Concept = Concept(lead: string, answer: string, reason: string)

  function Concepts(): seq<Concept>
  {
    [ Concept("What is the primary function of", "Regulation",
              "Regulation ensures stability within the system."),
      Concept("Which of these is a key component of", "Core Structure",
              "The Core Structure provides the necessary support."),
      Concept("Identify the correct characteristic of", "Variability",
              "Variability allows for adaptation in changing environments.") ]
  }

  /**
   * A concept question for a non-Maths subject: template `pick` (drawn from
   * [0, 2]) gives the question and the right answer, which always sits in
   * slot 1 among three fixed distractors.
   */
  function GenerateGeneric(classNo: int, subject: string, chapter: string, level: Difficulty, id: string, pick: int): (q: Question)
    requires Drawn(pick, 0, 2)
    ensures WellFormed(q) && q.correct == 1
    ensures q.options[1] == Label(Concepts()[pick].answer)
    ensures q.options[0] == Label("Unknown Factor")
    ensures q.options[2] == Label("External Force")
    ensures q.options[3] == Label("Null Value")
    ensures q.id == id && q.classNo == classNo && q.subject == subject && q.chapter == chapter && q.difficulty == level
    ensures q.prompt.TextPrompt? && Contains(q.prompt.text, subject) && Contains(q.prompt.text, chapter)
    ensures q.explanation.TextExplanation? && Contains(q.explanation.text, q.options[q.correct].text)
  {
    var c := Concepts()[pick];
    var text := "[" + subject + "] " + c.lead + " " + chapter + "?";
    var explanation := "Correct Answer: " + c.answer + ". Reason: " + c.reason;
    assert text == "[" + subject + ("] " + c.lead + " " + chapter + "?");
    ContainsInfix("[", subject, "] " + c.lead + " " + chapter + "?");
    ContainsInfix("[" + subject + "] " + c.lead + " ", chapter, "?");
    assert explanation == "Correct Answer: " + c.answer + (". Reason: " + c.reason);
    ContainsInfix("Correct Answer: ", c.answer, ". Reason: " + c.reason);
    Question(id, classNo, subject, chapter, TextPrompt(text),
             [Label("Unknown Factor"), Label(c.answer), Label("External Force"), Label("Null Value")],
             1, level, TextExplanation(explanation))
  }
}

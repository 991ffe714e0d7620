/** The arithmetic quiz: ten generated sums and differences whose size
    grows with the question number, the answer check and the counters it
    keeps. */
module MathQuiz {
  import opened Wrappers
  import opened Rand

  const TotalQuestions: nat := 10

  datatype Operator = Plus | Minus

  datatype Question = Question(a: int, b: int, op: Operator, answer: int)

  /** The largest operand size for the question at position `i`. */
  function MaxVal(i: int): int
  {
    if i < 3 then 20 else if i < 7 then 100 else 1000
  }

  /** What the quiz promises about a question: both operands positive
      and the sum within the tier for an addition, a non-negative
      subtrahend below the minuend for a subtraction, and the right
      answer. */
  predicate WellPosed(i: int, q: Question)
  {
    (q.op == Plus ==>
       1 <= q.a <= MaxVal(i) - 1 && 1 <= q.b <= MaxVal(i) - q.a &&
       q.answer == q.a + q.b && q.answer <= MaxVal(i)) &&
    (q.op == Minus ==>
       1 <= q.a <= MaxVal(i) && 0 <= q.b < q.a &&
       q.answer == q.a - q.b && q.answer >= 1)
  }

  /** The three draws one question consumes: the operator, then the
      first and the second operand. */
  datatype Draws = Draws(op: real, first: real, second: real)

  predicate DrawsOk(d: Draws) { IsDraw(d.op) && IsDraw(d.first) && IsDraw(d.second) }

  /** The question generated at position `i` from its draws. */
  function MakeQuestion(i: int, d: Draws): (q: Question)
    requires DrawsOk(d)
    ensures WellPosed(i, q)
  {
    var maxVal := MaxVal(i);
    if d.op > 0.3 then
      var a := Pick(d.first, maxVal - 1) + 1;
      var b := Pick(d.second, maxVal - a) + 1;
      Question(a, b, Plus, a + b)
    else
      var a := Pick(d.first, maxVal) + 1;
      var b := Pick(d.second, a);
      Question(a, b, Minus, a - b)
  }

  /** Every answer lies between 1 and 1000, whatever the draws. */
  lemma AnswerRange(i: int, q: Question)
    requires WellPosed(i, q)
    ensures 1 <= q.answer <= 1000
  {
  }

  /** The question list for one game, built from ten rounds of draws. */
  method GenerateQuestions(draws: seq<Draws>) returns (qs: seq<Question>)
    requires |draws| == TotalQuestions
    requires forall i | 0 <= i < |draws| :: DrawsOk(draws[i])
    ensures |qs| == TotalQuestions
    ensures forall i | 0 <= i < |qs| :: qs[i] == MakeQuestion(i, draws[i]) && WellPosed(i, qs[i])
  {
    qs := [];
    for i := 0 to TotalQuestions
      invariant |qs| == i
      invariant forall j | 0 <= j < i :: qs[j] == MakeQuestion(j, draws[j])
    {
      var maxVal;
      if i < 3 {
        maxVal := 20;
      } else if i < 7 {
        maxVal := 100;
      } else {
        maxVal := 1000;
      }
      var d := draws[i];
      var a, b, operator, answer;
      if d.op > 0.3 {
        a := Pick(d.first, maxVal - 1) + 1;
        b := Pick(d.second, maxVal - a) + 1;
        operator := Plus;
        answer := a + b;
      } else {
        a := Pick(d.first, maxVal) + 1;
        b := Pick(d.second, a);
        operator := Minus;
        answer := a - b;
      }
      qs := qs + [Question(a, b, operator, answer)];
    }
  }

  // ---------------------------------------------------------------------
  // Decimal text: the question's rendering and `parseInt(text, 10)`.

  predicate IsDigit(c: char) { '0' <= c <= '9' }

  function DigitChar(d: int): char
    requires 0 <= d < 10
  {
    ('0' as int + d) as char
  }

  /** The decimal digits of a whole number, without leading zeros. */
  function Decimal(n: nat): (s: string)
    ensures |s| > 0 && forall k | 0 <= k < |s| :: IsDigit(s[k])
  {
    if n < 10 then [DigitChar(n)] else Decimal(n / 10) + [DigitChar(n % 10)]
  }

  function DigitOf(c: char): nat
    requires IsDigit(c)
  {
    c as int - '0' as int
  }

  /** The number a string of digits spells. */
  function DigitsValue(s: string): nat
    requires forall k | 0 <= k < |s| :: IsDigit(s[k])
  {
    if s == [] then 0
    else DigitsValue(s[..|s| - 1]) * 10 + DigitOf(s[|s| - 1])
  }

  lemma {:induction false} DecimalValue(n: nat)
    ensures DigitsValue(Decimal(n)) == n
  {
    if n >= 10 {
      DecimalValue(n / 10);
      var s := Decimal(n);
      assert s[..|s| - 1] == Decimal(n / 10);
    }
  }

  /** The characters `parseInt` skips before the number: the ASCII white
      space, the no-break space and the byte-order mark. */
  predicate IsWhite(c: char)
  {
    c == ' ' || c == '\t' || c == '\n' || c == '\r' || c == '\U{000B}' || c == '\U{000C}' ||
    c == '\U{00A0}' || c == '\U{FEFF}'
  }

  /** The text after the leading white space. */
  function SkipWhite(s: string): (t: string)
    ensures |t| <= |s| && t == s[|s| - |t|..]
    ensures t != [] ==> !IsWhite(t[0])
  {
    if s != [] && IsWhite(s[0]) then SkipWhite(s[1..]) else s
  }

  /** The length of the run of digits at the start of `s`. */
  function LeadingDigits(s: string): (n: nat)
    ensures n <= |s| && forall k | 0 <= k < n :: IsDigit(s[k])
    ensures n < |s| ==> !IsDigit(s[n])
  {
    if s != [] && IsDigit(s[0]) then 1 + LeadingDigits(s[1..]) else 0
  }

  /** The text after an optional sign, and whether the sign was a minus. */
  function SignSplit(t: string): (string, bool)
  {
    if t != [] && (t[0] == '-' || t[0] == '+') then (t[1..], t[0] == '-') else (t, false)
  }

  /** The text after the white space and an optional sign, and whether the
      sign was a minus. */
  function Unsigned(s: string): (string, bool)
  {
    SignSplit(SkipWhite(s))
  }

  /** `parseInt(s, 10)`: `None` stands for NaN, the result when no digit
      follows the white space and the sign; otherwise the value of the
      longest run of digits, negated after a minus. */
  function ParseInt(s: string): (v: Option<int>)
    ensures v.Some? <==> LeadingDigits(Unsigned(s).0) > 0
  {
    var (u, negative) := Unsigned(s);
    var n := LeadingDigits(u);
    if n == 0 then None
    else
      var m: int := DigitsValue(u[..n]);
      Some(if negative then -m else m)
  }

  /** A whole number in decimal, with a minus when it is negative. */
  function SignedDecimal(n: int): string
  {
    if n < 0 then "-" + Decimal(-n) else Decimal(n)
  }

  /** Reading back a number typed in decimal, with any white space
      before it and anything that is not a digit after it, gives the
      number. */
  lemma ParseSignedDecimal(pad: string, n: int, rest: string)
    requires forall k | 0 <= k < |pad| :: IsWhite(pad[k])
    requires rest == [] || !IsDigit(rest[0])
    ensures ParseInt(pad + SignedDecimal(n) + rest) == Some(n)
  {
    var text := SignedDecimal(n) + rest;
    var d := Decimal(if n < 0 then -n else n);
    var u := d + rest;
    assert pad + SignedDecimal(n) + rest == pad + text;
    assert text == (if n < 0 then "-" + u else u);
    SkipPad(pad, text);
    SignThenDigits(text, u, n < 0);
    DigitsThenStop(d, rest);
    assert u[..|d|] == d;
    DecimalValue(if n < 0 then -n else n);
  }

  lemma SignThenDigits(text: string, u: string, negative: bool)
    requires text == (if negative then "-" + u else u)
    requires u != [] && IsDigit(u[0])
    ensures SignSplit(text) == (u, negative)
  {
    if negative {
      assert text[1..] == u;
    }
  }

  lemma {:induction false} SkipPad(pad: string, text: string)
    requires forall k | 0 <= k < |pad| :: IsWhite(pad[k])
    requires text == [] || !IsWhite(text[0])
    ensures SkipWhite(pad + text) == text
  {
    if pad != [] {
      assert (pad + text)[1..] == pad[1..] + text;
      SkipPad(pad[1..], text);
    }
  }

  lemma {:induction false} DigitsThenStop(d: string, rest: string)
    requires forall k | 0 <= k < |d| :: IsDigit(d[k])
    requires rest == [] || !IsDigit(rest[0])
    ensures LeadingDigits(d + rest) == |d|
  {
    if d != [] {
      assert (d + rest)[1..] == d[1..] + rest;
      DigitsThenStop(d[1..], rest);
    }
  }

  /** The question as the review list shows it, such as "5 + 3". */
  function QuestionText(q: Question): string
  {
    SignedDecimal(q.a) + " " + (if q.op == Plus then "+" else "-") + " " + SignedDecimal(q.b)
  }

  // ---------------------------------------------------------------------
  // The game's state.

  datatype AnswerRecord = AnswerRecord(question: string, userAnswer: Option<int>, correctAnswer: int, isCorrect: bool)

  /** The number of records marked correct. */
  function CorrectCount(records: seq<AnswerRecord>): (n: nat)
    ensures n <= |records|
  {
    if records == [] then 0
    else CorrectCount(records[..|records| - 1]) + (if records[|records| - 1].isCorrect then 1 else 0)
  }

  lemma CorrectCountAppend(records: seq<AnswerRecord>, r: AnswerRecord)
    ensures CorrectCount(records + [r]) == CorrectCount(records) + (if r.isCorrect then 1 else 0)
  {
    assert (records + [r])[..|records|] == records;
  }

  /** The quiz: the generated questions, the position, the score, the
      answers given so far and whether the answer field and the submit
      button are enabled. */
  class Quiz {
    var questions: seq<Question>
    var currentQuestionIndex: nat
    var score: nat
    var userAnswers: seq<AnswerRecord>
    var inputEnabled: bool

    /** The score counts the correct answers; one answer is recorded per
        question reached, the current one once it is submitted; input is
        open only on a question not yet answered. */
    ghost predicate Valid()
      reads this
    {
      score == CorrectCount(userAnswers) &&
      (questions == [] || |questions| == TotalQuestions) &&
      currentQuestionIndex <= |userAnswers| <= currentQuestionIndex + 1 &&
      |userAnswers| <= |questions| &&
      (inputEnabled ==> |userAnswers| == currentQuestionIndex < |questions|)
    }

    /** The page before the first start: the game screen is hidden, so no
        answer can be submitted. */
    constructor ()
      ensures Valid() && questions == [] && currentQuestionIndex == 0
      ensures score == 0 && userAnswers == [] && !inputEnabled
    {
      questions := [];
      currentQuestionIndex := 0;
      score := 0;
      userAnswers := [];
      inputEnabled := false;
    }

    /** Starting or restarting: ten fresh questions, position, score and
        answers reset, and the first question is open for an answer. */
    method StartGame(draws: seq<Draws>)
      requires Valid()
      requires |draws| == TotalQuestions
      requires forall i | 0 <= i < |draws| :: DrawsOk(draws[i])
      modifies this
      ensures Valid()
      ensures |questions| == TotalQuestions
      ensures forall i | 0 <= i < TotalQuestions :: questions[i] == MakeQuestion(i, draws[i])
      ensures currentQuestionIndex == 0 && score == 0 && userAnswers == [] && inputEnabled
    {
      questions := GenerateQuestions(draws);
      currentQuestionIndex := 0;
      score := 0;
      userAnswers := [];
      inputEnabled := true;
    }

    /** Submitting the text in the answer field. Nothing happens while the
        input is disabled or when the field is empty; otherwise input is
        disabled, one record is appended and the score goes up by one
        exactly when the parsed answer is the question's answer. */
    method SubmitAnswer(inputVal: string)
      requires Valid()
      modifies this
      ensures Valid()
      ensures questions == old(questions) && currentQuestionIndex == old(currentQuestionIndex)
      ensures !old(inputEnabled) || inputVal == "" ==> unchanged(this)
      ensures old(inputEnabled) && inputVal != "" ==>
                var q := questions[currentQuestionIndex];
                var correct := ParseInt(inputVal) == Some(q.answer);
                !inputEnabled &&
                userAnswers == old(userAnswers) + [AnswerRecord(QuestionText(q), ParseInt(inputVal), q.answer, correct)] &&
                score == old(score) + (if correct then 1 else 0)
    {
      if !inputEnabled || inputVal == "" {
        return;
      }
      var userAnswer := ParseInt(inputVal);
      var q := questions[currentQuestionIndex];
      var isCorrect := userAnswer == Some(q.answer);
      var record := AnswerRecord(QuestionText(q), userAnswer, q.answer, isCorrect);
      var answers := userAnswers;
      CorrectCountAppend(answers, record);
      inputEnabled := false;
      userAnswers := answers + [record];
      if isCorrect {
        score := score + 1;
      }
    }

    /** The step after the feedback pause that follows a submission: on to
        the next question, which opens for an answer, or past the last one,
        where the game ends with input still disabled. */
    method NextQuestion()
      requires Valid() && !inputEnabled && |userAnswers| == currentQuestionIndex + 1
      modifies this
      ensures Valid()
      ensures currentQuestionIndex == old(currentQuestionIndex) + 1
      ensures questions == old(questions) && score == old(score) && userAnswers == old(userAnswers)
      ensures inputEnabled <==> currentQuestionIndex < TotalQuestions
    {
      currentQuestionIndex := currentQuestionIndex + 1;
      if currentQuestionIndex < TotalQuestions {
        inputEnabled := true;
      }
    }

    /** However play goes, the score never exceeds the answers recorded,
        and those never exceed the ten questions. */
    lemma ScoreBounded()
      requires Valid()
      ensures score <= |userAnswers| <= TotalQuestions
    {
    }
  }
}

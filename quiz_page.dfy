/**
 * The quiz page's state (js/quiz.js): ten questions in a row, the score,
 * the expected answer and the choice buttons. Every `Math.random` the page
 * draws for one question arrives as a `Draw`; the 800 ms timer that
 * `checkAnswer` arms becomes the caller's explicit `NextQuestion`.
 */
module QuizPage {
  import opened Wrappers
  import opened Strings
  import opened Pitch
  import opened Quiz

  /** The value of the quiz-type selector; `Other` is any value `generateQuestion` does not know. */
  datatype QuizMode = ChordInput | ChordChoice | ScaleName | ScaleNotes | KeySigToKey | KeyToKeySig | Other

  /** The modes whose answer is typed; the others answer by buttons. */
  predicate IsInputMode(mode: QuizMode) {
    mode == ChordInput || mode == ScaleNotes || mode == KeyToKeySig
  }

  /**
   * The random draws of one question: a root index, a chord-type, scale or
   * key index, the draws of the choice loop and the final shuffle.
   */
  datatype Draw = Draw(root: int, pick: int, candidates: seq<seq<int>>, order: seq<int>)

  predicate DrawInRange(mode: QuizMode, d: Draw) {
    match mode
    case ChordInput => 0 <= d.root < 14 && 0 <= d.pick < 5
    case ChordChoice => 0 <= d.root < 14 && 0 <= d.pick < 5
    case ScaleName => 0 <= d.root < 14 && 0 <= d.pick < 7
    case ScaleNotes => 0 <= d.root < 14 && 0 <= d.pick < 7
    case KeySigToKey => 0 <= d.pick < 10
    case KeyToKeySig => 0 <= d.pick < 10
    case Other => true
  }

  /** Every quiz root can be spelled; every drawn key names a table entry. */
  lemma DrawnKeys(mode: QuizMode, d: Draw)
    requires DrawInRange(mode, d)
    ensures mode != KeySigToKey && mode != KeyToKeySig && mode != Other ==> 0 <= ChromaticIndexOf(Normalize(QuizRoots[d.root]))
    ensures (mode == ChordInput || mode == ChordChoice) ==> ChordTypeKeys[d.pick] in ChordTypes
    ensures (mode == ScaleName || mode == ScaleNotes) ==> ScaleKeys[d.pick] in Scales
    ensures (mode == KeySigToKey || mode == KeyToKeySig) ==> KeyKeys[d.pick] in KeySignatures
  {
    if mode != KeySigToKey && mode != KeyToKeySig && mode != Other {
      RootsNormalize(d.root);
    }
    ChordTypeKeysMatch();
    ScaleKeysMatch();
    KeyKeysMatch();
  }

  /** The spelled chord of a chord question. */
  function ChordOf(d: Draw): (r: seq<string>)
    requires 0 <= d.root < 14 && 0 <= d.pick < 5
    ensures 3 <= |r| <= 4
  {
    DrawnKeys(ChordInput, d);
    ChordTypeOf(ChordTypeKeys[d.pick]);
    ChordAnswer(QuizRoots[d.root], ChordTypeKeys[d.pick])
  }

  /** The spelled scale of a scale question. */
  function ScaleOfDraw(d: Draw): (r: seq<string>)
    requires 0 <= d.root < 14 && 0 <= d.pick < 7
    ensures |r| == 7
  {
    DrawnKeys(ScaleNotes, d);
    ScaleAnswer(QuizRoots[d.root], ScaleKeys[d.pick])
  }

  /** `correctAnswer` after `generateQuestion`; `None` where it leaves the old one. */
  function AnswerOf(mode: QuizMode, d: Draw): (r: Option<Answer>)
    requires DrawInRange(mode, d)
    ensures r.None? <==> mode == Other
    ensures IsInputMode(mode) || mode == ChordChoice ==> r.Some? && r.value.Tones?
    ensures mode == ScaleName || mode == KeySigToKey ==> r.Some? && r.value.Text?
    ensures mode == ChordInput || mode == ChordChoice ==> 3 <= |r.value.tones| <= 4
    ensures mode == ScaleNotes ==> |r.value.tones| == 7
  {
    DrawnKeys(mode, d);
    match mode
    case ChordInput => Some(Tones(ChordOf(d)))
    case ChordChoice => Some(Tones(ChordOf(d)))
    case ScaleName => Some(Text(ScaleKeys[d.pick]))
    case ScaleNotes => Some(Tones(ScaleOfDraw(d)))
    case KeySigToKey => Some(Text(KeyKeys[d.pick]))
    case KeyToKeySig => Some(Tones(KeySignatures[KeyKeys[d.pick]]))
    case Other => None
  }

  /** The question text `generateQuestion` shows. */
  function PromptOf(mode: QuizMode, d: Draw): (r: string)
    requires DrawInRange(mode, d)
    ensures mode == ScaleName ==> Split(r) == ScaleOfDraw(d)
  {
    DrawnKeys(mode, d);
    match mode
    case ChordInput => QuizRoots[d.root] + " " + ChordTypeKeys[d.pick]
    case ChordChoice => QuizRoots[d.root] + " " + ChordTypeKeys[d.pick]
    case ScaleName =>
      ScaleOfDrawWords(d);
      SplitJoin(ScaleOfDraw(d));
      Join(ScaleOfDraw(d), " ")
    case ScaleNotes => QuizRoots[d.root] + " " + ScaleKeys[d.pick]
    case KeySigToKey => SignaturePrompt(KeySignatures[KeyKeys[d.pick]])
    case KeyToKeySig => KeyKeys[d.pick]
    case Other => ""
  }

  /** The notes of a scale are words, so the space-joined scale prompt splits back into them. */
  lemma ScaleOfDrawWords(d: Draw)
    requires 0 <= d.root < 14 && 0 <= d.pick < 7
    ensures forall k :: 0 <= k < |ScaleOfDraw(d)| ==> IsWord(ScaleOfDraw(d)[k])
  {
    DrawnKeys(ScaleNotes, d);
    ScaleOf(ScaleKeys[d.pick]);
    SpelledSpec(d.root, Scales[ScaleKeys[d.pick]]);
    forall k | 0 <= k < |ScaleOfDraw(d)| ensures IsWord(ScaleOfDraw(d)[k]) {
      ChromaticName(ScaleOfDraw(d)[k]);
    }
  }

  /** The arguments of `generateChoices`, for the modes that call it. */
  function ChoiceKey(mode: QuizMode, d: Draw): Option<(string, ChoiceMode)>
    requires DrawInRange(mode, d)
  {
    match mode
    case ChordChoice => Some((Join(ChordOf(d), " "), ChordTones))
    case ScaleName => Some((ScaleKeys[d.pick], ScaleNames))
    case KeySigToKey => Some((KeyKeys[d.pick], Keys))
    case _ => None
  }

  /** The draws are in range, and the choice loop, if any, gets enough candidates to stop. */
  predicate DrawOk(mode: QuizMode, d: Draw) {
    && DrawInRange(mode, d)
    && match ChoiceKey(mode, d)
       case None => true
       case Some(k) =>
         && (forall j :: 0 <= j < |d.candidates| ==> ValidDraw(k.1, d.candidates[j]))
         && Enough(k.0, Candidates(k.1, d.candidates))
         && IsOrder(d.order)
  }

  /** The buttons `generateChoices` leaves: four different strings, the key among them, the rest drawn candidates. */
  predicate ChoicesFor(choices: seq<string>, key: string, cm: ChoiceMode, draws: seq<seq<int>>)
    requires forall j :: 0 <= j < |draws| ==> ValidDraw(cm, draws[j])
  {
    && |choices| == 4 && Distinct(choices) && key in choices
    && forall x :: x in choices ==> x == key || x in Candidates(cm, draws)
  }

  /** The string `generateChoices` gets as the correct one grades as correct when its button is clicked. */
  lemma CorrectChoiceGrades(mode: QuizMode, d: Draw)
    requires DrawInRange(mode, d) && ChoiceKey(mode, d).Some?
    ensures Grade(AnswerOf(mode, d), Chosen(ChoiceKey(mode, d).value.0))
  {
    NamesAreWords();
    if mode == ChordChoice {
      var a := ChordOf(d);
      var f := ChordTypes[ChordTypeKeys[d.pick]];
      DrawnKeys(mode, d);
      ChordTypeOf(ChordTypeKeys[d.pick]);
      SpelledSpec(d.root, f);
      forall k | 0 <= k < |a| ensures IsWord(a[k]) && a[k] !in FlatToSharp {
        ChromaticName(a[k]);
      }
      SplitJoin(a);
      NormalizeAllKeeps(a);
      NonEmptyWords(a);
    }
  }

  /**
   * A "scaleName" prompt decides its answer: two questions showing the same
   * notes expect the same scale name, whatever roots they were drawn from.
   */
  lemma ScalePromptDecides(d1: Draw, d2: Draw)
    requires DrawInRange(ScaleName, d1) && DrawInRange(ScaleName, d2)
    requires PromptOf(ScaleName, d1) == PromptOf(ScaleName, d2)
    ensures AnswerOf(ScaleName, d1) == AnswerOf(ScaleName, d2)
  {
    var n1, n2 := ScaleOfDraw(d1), ScaleOfDraw(d2);
    var f1, f2 := Scales[ScaleKeys[d1.pick]], Scales[ScaleKeys[d2.pick]];
    DrawnKeys(ScaleName, d1);
    DrawnKeys(ScaleName, d2);
    ScaleOf(ScaleKeys[d1.pick]);
    ScaleOf(ScaleKeys[d2.pick]);
    SpelledSpec(d1.root, f1);
    SpelledSpec(d2.root, f2);
    assert n1 == Split(PromptOf(ScaleName, d1)) == n2;
    RootsNormalize(d1.root);
    RootsNormalize(d2.root);
    ChromaticInjective(RootPitch[d1.root], RootPitch[d2.root]);
    SpellDecidesFormula(RootPitch[d1.root], f1, f2);
    ScalesDistinct(d1.pick, d2.pick);
  }

  /** The "퀴즈 종료" text of the end screen. */
  const EndMessage: string := "\U{D034}\U{C988} \U{C885}\U{B8CC}"

  /** Number of questions in one quiz. */
  const QuestionCount := 10

  class Session {
    var currentQuestion: int
    var score: int
    var correctAnswer: Option<Answer>
    var quizMode: QuizMode
    /** Whether the text input (and so Enter and the submit button) is shown. */
    var inputShown: bool
    var question: string
    var choices: seq<string>
    /** Whether the current question still waits for its one grading (corrected behaviour, see `CheckAnswerOnce`). */
    var awaiting: bool

    /** The score never runs ahead of the questions asked, and an open question is not yet scored. */
    ghost predicate Valid()
      reads this
    {
      && 0 <= currentQuestion <= QuestionCount
      && 0 <= score <= currentQuestion
      && (awaiting ==> score < currentQuestion)
    }

    /** The page as loaded: no quiz running, no answer, the input displayed. */
    constructor()
      ensures Valid()
      ensures currentQuestion == 0 && score == 0 && correctAnswer == None && quizMode == Other
      ensures inputShown && question == "" && choices == [] && !awaiting
    {
      currentQuestion := 0;
      score := 0;
      correctAnswer := None;
      quizMode := Other;
      inputShown := true;
      question := "";
      choices := [];
      awaiting := false;
    }

    /** `generateQuestion`, with the choices `nextQuestion` cleared before it. */
    method GenerateQuestion(d: Draw)
      requires DrawOk(quizMode, d)
      modifies this
      ensures currentQuestion == old(currentQuestion) && score == old(score)
      ensures quizMode == old(quizMode) && inputShown == old(inputShown)
      ensures AnswerOf(quizMode, d).Some? ==>
        correctAnswer == AnswerOf(quizMode, d) && question == PromptOf(quizMode, d) && awaiting
      ensures AnswerOf(quizMode, d).None? ==>
        correctAnswer == old(correctAnswer) && question == old(question) && awaiting == old(awaiting)
      ensures match ChoiceKey(quizMode, d)
        case None => choices == []
        case Some(k) => ChoicesFor(choices, k.0, k.1, d.candidates)
    {
      choices := [];
      var answer := AnswerOf(quizMode, d);
      if answer.Some? {
        correctAnswer := answer;
        question := PromptOf(quizMode, d);
        awaiting := true;
      }
      var key := ChoiceKey(quizMode, d);
      if key.Some? {
        choices := GenerateChoices(key.value.0, key.value.1, d.candidates, d.order);
      }
    }

    /**
     * `nextQuestion`: after the tenth question the end screen and nothing
     * else; before it one more question.
     */
    method NextQuestion(d: Draw)
      requires DrawOk(quizMode, d)
      modifies this
      ensures score == old(score) && quizMode == old(quizMode) && inputShown == old(inputShown)
      ensures old(currentQuestion) >= QuestionCount ==>
        && currentQuestion == old(currentQuestion) && correctAnswer == old(correctAnswer)
        && question == EndMessage && choices == [] && !awaiting
      ensures old(currentQuestion) < QuestionCount ==>
        && currentQuestion == old(currentQuestion) + 1
        && correctAnswer == (if AnswerOf(quizMode, d).Some? then AnswerOf(quizMode, d) else old(correctAnswer))
        && question == (if AnswerOf(quizMode, d).Some? then PromptOf(quizMode, d) else old(question))
        && awaiting == AnswerOf(quizMode, d).Some?
        && match ChoiceKey(quizMode, d)
           case None => choices == []
           case Some(k) => ChoicesFor(choices, k.0, k.1, d.candidates)
      ensures old(Valid()) ==> Valid()
    {
      if currentQuestion >= QuestionCount {
        question := EndMessage;
        choices := [];
        awaiting := false;
        return;
      }
      currentQuestion := currentQuestion + 1;
      awaiting := false;
      GenerateQuestion(d);
    }

    /** `startQuiz`: score and count back to zero, the mode's input shown, then the first question. */
    method StartQuiz(mode: QuizMode, d: Draw)
      requires DrawOk(mode, d)
      modifies this
      ensures Valid()
      ensures currentQuestion == 1 && score == 0 && quizMode == mode && inputShown == IsInputMode(mode)
      ensures correctAnswer == (if AnswerOf(mode, d).Some? then AnswerOf(mode, d) else old(correctAnswer))
      ensures question == (if AnswerOf(mode, d).Some? then PromptOf(mode, d) else old(question))
      ensures awaiting == AnswerOf(mode, d).Some?
      ensures match ChoiceKey(mode, d)
        case None => choices == []
        case Some(k) => ChoicesFor(choices, k.0, k.1, d.candidates)
    {
      currentQuestion := 0;
      score := 0;
      quizMode := mode;
      inputShown := IsInputMode(mode);
      awaiting := false;
      NextQuestion(d);
    }

    /**
     * `checkAnswer` as written: every call grades against the current answer
     * and scores a point when correct, however often the same question is
     * answered.
     */
    method CheckAnswer(user: Reply) returns (correct: bool)
      modifies this
      ensures correct == Grade(old(correctAnswer), user)
      ensures score == old(score) + (if correct then 1 else 0)
      ensures currentQuestion == old(currentQuestion) && correctAnswer == old(correctAnswer)
      ensures quizMode == old(quizMode) && choices == old(choices) && awaiting == old(awaiting)
      ensures question == old(question) && inputShown == old(inputShown)
    {
      correct := Grade(correctAnswer, user);
      if correct {
        score := score + 1;
      }
    }

    /**
     * `checkAnswer` as evidently intended: a question is graded once; a
     * second answer, or one after the end screen, changes nothing.
     */
    method CheckAnswerOnce(user: Reply) returns (graded: Option<bool>)
      modifies this
      ensures old(awaiting) ==> graded == Some(Grade(old(correctAnswer), user))
      ensures !old(awaiting) ==> graded == None
      ensures !awaiting
      ensures score == old(score) + (if graded == Some(true) then 1 else 0)
      ensures currentQuestion == old(currentQuestion) && correctAnswer == old(correctAnswer)
      ensures quizMode == old(quizMode) && choices == old(choices)
      ensures question == old(question) && inputShown == old(inputShown)
      ensures old(Valid()) ==> Valid()
    {
      if !awaiting {
        return None;
      }
      awaiting := false;
      var correct := Grade(correctAnswer, user);
      if correct {
        score := score + 1;
      }
      graded := Some(correct);
    }

    /**
     * `submitAnswer` as written, from Enter or the submit button, which only
     * work while the input is shown: the typed text is upper-cased, split and
     * graded, and every submission scores when correct.
     */
    method SubmitAnswer(text: string) returns (graded: Option<bool>)
      modifies this
      ensures !old(inputShown) ==> graded == None && score == old(score)
      ensures old(inputShown) ==> graded == Some(Grade(old(correctAnswer), SubmitReply(text)))
      ensures score == old(score) + (if graded == Some(true) then 1 else 0)
      ensures currentQuestion == old(currentQuestion) && correctAnswer == old(correctAnswer)
      ensures quizMode == old(quizMode) && choices == old(choices) && awaiting == old(awaiting)
      ensures question == old(question) && inputShown == old(inputShown)
    {
      if !inputShown {
        return None;
      }
      var correct := CheckAnswer(SubmitReply(text));
      graded := Some(correct);
    }

    /** `submitAnswer` with flats read as flats and one grading per question. */
    method SubmitAnswerFixed(text: string) returns (graded: Option<bool>)
      modifies this
      ensures !old(inputShown) ==> graded == None && score == old(score) && awaiting == old(awaiting)
      ensures old(inputShown) && old(awaiting) ==> graded == Some(Grade(old(correctAnswer), SubmitReplyFixed(text)))
      ensures old(inputShown) ==> !awaiting
      ensures !old(awaiting) ==> graded == None
      ensures score == old(score) + (if graded == Some(true) then 1 else 0)
      ensures currentQuestion == old(currentQuestion) && correctAnswer == old(correctAnswer)
      ensures quizMode == old(quizMode) && choices == old(choices)
      ensures question == old(question) && inputShown == old(inputShown)
      ensures old(Valid()) ==> Valid()
    {
      if !inputShown {
        return None;
      }
      graded := CheckAnswerOnce(SubmitReplyFixed(text));
    }

    /** A click on the `k`-th choice button, as written: `checkAnswer(choice)`, scored on every click. */
    method Choose(k: int) returns (correct: bool)
      requires 0 <= k < |choices|
      modifies this
      ensures correct == Grade(old(correctAnswer), Chosen(old(choices)[k]))
      ensures score == old(score) + (if correct then 1 else 0)
      ensures currentQuestion == old(currentQuestion) && correctAnswer == old(correctAnswer)
      ensures quizMode == old(quizMode) && choices == old(choices) && awaiting == old(awaiting)
      ensures question == old(question) && inputShown == old(inputShown)
    {
      correct := CheckAnswer(Chosen(choices[k]));
    }

    /** A click on the `k`-th choice button with one grading per question. */
    method ChooseFixed(k: int) returns (graded: Option<bool>)
      requires 0 <= k < |choices|
      modifies this
      ensures old(awaiting) ==> graded == Some(Grade(old(correctAnswer), Chosen(old(choices)[k])))
      ensures !old(awaiting) ==> graded == None
      ensures !awaiting
      ensures score == old(score) + (if graded == Some(true) then 1 else 0)
      ensures currentQuestion == old(currentQuestion) && correctAnswer == old(correctAnswer)
      ensures quizMode == old(quizMode) && choices == old(choices)
      ensures question == old(question) && inputShown == old(inputShown)
      ensures old(Valid()) ==> Valid()
    {
      graded := CheckAnswerOnce(Chosen(choices[k]));
    }
  }

  /** The draw that asks for the signature of C major. */
  const KeyCDraw := Draw(0, 0, [], [])

  lemma KeyCQuestion()
    ensures DrawOk(KeyToKeySig, KeyCDraw)
    ensures AnswerOf(KeyToKeySig, KeyCDraw) == Some(Tones([]))
  {
    assert KeyKeys[0] == "C";
    assert KeySignatures["C"] == [];
  }

  /**
   * Answering the first question twice as the page does: for key C an empty
   * submission is correct, and the two of them score 2 on question 1 (each
   * also arms its own advance, which the caller would run next).
   */
  method DoubleAnswerScoresTwice() returns (s: Session)
    ensures s.currentQuestion == 1 && s.score == 2
    ensures s.score > s.currentQuestion
  {
    s := new Session();
    KeyCQuestion();
    s.StartQuiz(KeyToKeySig, KeyCDraw);
    assert Grade(Some(Tones([])), SubmitReply("")) by {
      EmptySubmissionForC();
    }
    var first := s.SubmitAnswer("");
    var second := s.SubmitAnswer("");
  }

  /** The same two answers with the corrected grading: the second is ignored and grades nothing. */
  method DoubleAnswerScoresOnce() returns (s: Session, second: Option<bool>)
    ensures s.currentQuestion == 1 && s.score == 1
    ensures second == None
    ensures s.Valid()
  {
    s := new Session();
    KeyCQuestion();
    s.StartQuiz(KeyToKeySig, KeyCDraw);
    assert Grade(Some(Tones([])), SubmitReplyFixed("")) by {
      EmptyFixedGraded();
    }
    var first := s.SubmitAnswerFixed("");
    second := s.SubmitAnswerFixed("");
  }

  /**
   * The overrun that lasts, as written: every key-C question answered once,
   * each answer followed by its advance. From question 10 on `nextQuestion`
   * only shows the end screen, yet the input still grades, so the eleventh
   * answer makes the score 11 out of 10.
   */
  method ScoreOverrunsQuiz() returns (s: Session)
    ensures s.currentQuestion == QuestionCount && s.score == QuestionCount + 1
  {
    s := new Session();
    KeyCQuestion();
    s.StartQuiz(KeyToKeySig, KeyCDraw);
    var i := 0;
    while i < QuestionCount + 1
      invariant 0 <= i <= QuestionCount + 1
      invariant s.score == i
      invariant s.currentQuestion == if i + 1 < QuestionCount then i + 1 else QuestionCount
      invariant s.correctAnswer == Some(Tones([])) && s.inputShown && s.quizMode == KeyToKeySig
    {
      AnswerKeyCAndAdvance(s);
      i := i + 1;
    }
  }

  /** One round of that run: an empty answer to the key-C question, then its advance. */
  method AnswerKeyCAndAdvance(s: Session)
    requires s.correctAnswer == Some(Tones([])) && s.inputShown && s.quizMode == KeyToKeySig
    modifies s
    ensures s.score == old(s.score) + 1
    ensures s.currentQuestion == if old(s.currentQuestion) < QuestionCount then old(s.currentQuestion) + 1 else old(s.currentQuestion)
    ensures s.correctAnswer == Some(Tones([])) && s.inputShown && s.quizMode == KeyToKeySig
  {
    KeyCQuestion();
    EmptySubmissionForC();
    var graded := s.SubmitAnswer("");
    s.NextQuestion(KeyCDraw);
  }
}

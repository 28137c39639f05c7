/** The quiz page's handler logic: the answers chosen so far, the submitted flag and score,
    the started flag and the countdown timer, updated in place by the page's handlers and
    effects. Rendering and the one-second interval scheduling are not modelled; a call of
    `Tick` stands for one firing of the interval. */
module QuizTab {
  import opened Wrappers
  import opened Strings
  import opened Quiz

  /** `q.correct_option`: a normalised question has one; a raw fallback item has none
      (JavaScript's `undefined`). */
  function CorrectOption(q: QuizItem): Option<string>
  {
    match q
    case McqItem(m) => Some(m.correctOption)
    case RawItem(_) => None
  }

  /** `userAnswers[idx]`: the chosen key, or `undefined` when nothing was chosen. */
  function AnswerAt(answers: map<nat, string>, idx: nat): Option<string>
  {
    if idx in answers then Some(answers[idx]) else None
  }

  /** The comparison `userAnswers[idx] === q.correct_option`; two `undefined`s are equal. */
  predicate Scores(quiz: seq<QuizItem>, answers: map<nat, string>, idx: nat)
    requires idx < |quiz|
  {
    AnswerAt(answers, idx) == CorrectOption(quiz[idx])
  }

  /** The number of questions whose answer matches, counted from the back. */
  function CountCorrect(quiz: seq<QuizItem>, answers: map<nat, string>): nat
  {
    if quiz == [] then 0
    else
      var n := |quiz| - 1;
      CountCorrect(quiz[..n], answers) + (if Scores(quiz, answers, n) then 1 else 0)
  }

  /** The indices whose answer matches: an independent description of the score. */
  function CorrectIndices(quiz: seq<QuizItem>, answers: map<nat, string>): set<nat>
  {
    set i: nat | i < |quiz| && Scores(quiz, answers, i)
  }

  /** The score is the number of matching questions, hence between 0 and the quiz length. */
  lemma {:induction false} CountCorrectIsMatches(quiz: seq<QuizItem>, answers: map<nat, string>)
    ensures CountCorrect(quiz, answers) == |CorrectIndices(quiz, answers)|
    ensures 0 <= CountCorrect(quiz, answers) <= |quiz|
  {
    if quiz != [] {
      var n := |quiz| - 1;
      var init := quiz[..n];
      CountCorrectIsMatches(init, answers);
      var before := CorrectIndices(init, answers);
      assert forall i: nat | i < n :: Scores(quiz, answers, i) == Scores(init, answers, i) by {
        forall i: nat | i < n ensures quiz[i] == init[i] { }
      }
      if Scores(quiz, answers, n) {
        assert CorrectIndices(quiz, answers) == before + {n};
      } else {
        assert CorrectIndices(quiz, answers) == before;
      }
    }
  }

  /** Answering every question with its correct option scores full marks. */
  lemma {:induction false} AllCorrectScoresFull(quiz: seq<QuizItem>, answers: map<nat, string>)
    requires forall i | 0 <= i < |quiz| ::
      quiz[i].McqItem? && AnswerAt(answers, i) == Some(quiz[i].mcq.correctOption)
    ensures CountCorrect(quiz, answers) == |quiz|
  {
    if quiz != [] {
      var n := |quiz| - 1;
      AllCorrectScoresFull(quiz[..n], answers);
    }
  }

  /** With no answers, only questions without a correct option (raw fallback items) score:
      `undefined === undefined` holds in JavaScript, so a raw item left unanswered counts as
      correct. */
  lemma UnansweredScoresRawItems(quiz: seq<QuizItem>)
    ensures CorrectIndices(quiz, map[]) == set i: nat | i < |quiz| && quiz[i].RawItem?
    ensures (forall i | 0 <= i < |quiz| :: quiz[i].McqItem?) ==> CountCorrect(quiz, map[]) == 0
    ensures quiz == [RawItem(None)] ==> CountCorrect(quiz, map[]) == 1
  {
    CountCorrectIsMatches(quiz, map[]);
    if forall i | 0 <= i < |quiz| :: quiz[i].McqItem? {
      assert CorrectIndices(quiz, map[]) == {};
    }
    if quiz == [RawItem(None)] {
      assert CorrectIndices(quiz, map[]) == {0};
    }
  }

  /** `formatTime(seconds)`: `Math.floor(seconds / 60)` (a floor, which Dafny's division by a
      positive number is) and JavaScript's `seconds % 60`, which keeps the sign of `seconds`. */
  function JsRem60(seconds: int): (r: int)
    ensures -60 < r < 60
    ensures seconds >= 0 ==> r == seconds % 60
  {
    if seconds >= 0 then seconds % 60 else -((-seconds) % 60)
  }

  /** The seconds after the colon: a leading zero below ten. */
  function SecondsField(secs: int): string
  {
    (if secs < 10 then "0" else "") + IntToString(secs)
  }

  function FormatTime(seconds: int): string
  {
    IntToString(seconds / 60) + ":" + SecondsField(JsRem60(seconds))
  }

  lemma TwoDigits(secs: int)
    requires 0 <= secs < 60
    ensures var ss := SecondsField(secs);
      |ss| == 2 && IsDigit(ss[0]) && IsDigit(ss[1]) && DigitsValue(ss) == secs
  {
    var ss := SecondsField(secs);
    NatToStringRoundTrip(secs);
    if secs < 10 {
      assert NatToString(secs) == [DigitChar(secs)];
      assert ss[..1] == "0";
    } else {
      assert NatToString(secs) == NatToString(secs / 10) + [DigitChar(secs % 10)];
      assert NatToString(secs / 10) == [DigitChar(secs / 10)];
    }
  }

  /** For a non-negative time the display is `m:ss`: whole minutes, a colon and exactly two
      second digits, and reading it back gives `m * 60 + ss == seconds`. */
  lemma FormatTimeReadsBack(seconds: int)
    requires seconds >= 0
    ensures var t := FormatTime(seconds);
      var k := |t| - 3;
      k >= 1 && t[k] == ':'
      && (forall i | 0 <= i < |t| && i != k :: IsDigit(t[i]))
      && DigitsValue(t[..k]) * 60 + DigitsValue(t[k + 1..]) == seconds
      && DigitsValue(t[k + 1..]) < 60
  {
    var m := NatToString(seconds / 60);
    TwoDigits(seconds % 60);
    NatToStringRoundTrip(seconds / 60);
    ColonJoin(m, SecondsField(seconds % 60));
  }

  /** Where the parts of `m + ":" + ss` sit, for two-character `ss`. */
  lemma ColonJoin(m: string, ss: string)
    requires |ss| == 2 && IsDigit(ss[0]) && IsDigit(ss[1])
    requires forall i | 0 <= i < |m| :: IsDigit(m[i])
    ensures var t := m + ":" + ss;
      var k := |t| - 3;
      k == |m| && t[k] == ':' && t[..k] == m && t[k + 1..] == ss
      && forall i | 0 <= i < |t| && i != k :: IsDigit(t[i])
  {
    var t := m + ":" + ss;
    var k := |t| - 3;
    assert t[..k] == m && t[k + 1..] == ss;
    forall i | 0 <= i < |t| && i != k ensures IsDigit(t[i]) {
      if i < k { assert t[i] == m[i]; } else { assert t[i] == ss[i - k - 1]; }
    }
  }

  /** The default length of the quiz timer, in minutes. */
  const DefaultMinutes: int := 5

  /** The page's state. `quiz` is the question list handed to the page. */
  class QuizSession {
    var quiz: seq<QuizItem>
    var answers: map<nat, string>
    var submitted: bool
    var score: int
    var started: bool
    var timerActive: bool
    var timeLeft: int
    var customMinutes: int

    /** A score exists only once the quiz has been submitted, and the minute setting is
        never zero. */
    predicate Valid()
      reads this
    {
      0 <= score && (!submitted ==> score == 0) && customMinutes != 0
    }

    /** The initial state of the page. */
    constructor (quiz: seq<QuizItem>)
      ensures Valid()
      ensures this.quiz == quiz && answers == map[] && !submitted && score == 0
      ensures !started && !timerActive && timeLeft == 0 && customMinutes == DefaultMinutes
    {
      this.quiz := quiz;
      answers := map[];
      submitted := false;
      score := 0;
      started := false;
      timerActive := false;
      timeLeft := 0;
      customMinutes := DefaultMinutes;
    }

    /** The reset effect on a new question list: a non-empty list clears the answers, the
        submission, the score, the started flag and the timer; an empty one resets nothing.
        The remaining time is kept either way. */
    method QuizLoaded(newQuiz: seq<QuizItem>)
      requires Valid()
      modifies this
      ensures Valid()
      ensures quiz == newQuiz && timeLeft == old(timeLeft) && customMinutes == old(customMinutes)
      ensures |newQuiz| > 0 ==>
        answers == map[] && !submitted && score == 0 && !started && !timerActive
      ensures |newQuiz| == 0 ==>
        answers == old(answers) && submitted == old(submitted) && score == old(score)
        && started == old(started) && timerActive == old(timerActive)
    {
      quiz := newQuiz;
      if |newQuiz| > 0 {
        answers := map[];
        submitted := false;
        score := 0;
        started := false;
        timerActive := false;
      }
    }

    /** The minutes field: the parsed number, or 1 when it is not a number or is zero. */
    method SetCustomMinutes(parsed: Option<int>)
      requires Valid()
      modifies this
      ensures Valid()
      ensures customMinutes == if parsed.None? || parsed.value == 0 then 1 else parsed.value
      ensures quiz == old(quiz) && answers == old(answers) && submitted == old(submitted)
      ensures score == old(score) && started == old(started) && timerActive == old(timerActive)
      ensures timeLeft == old(timeLeft)
    {
      customMinutes := if parsed.None? || parsed.value == 0 then 1 else parsed.value;
    }

    /** `handleStartQuiz`: the timer is set to the chosen minutes and starts running. */
    method StartQuiz()
      requires Valid()
      modifies this
      ensures Valid()
      ensures timeLeft == customMinutes * 60 && timeLeft != 0 && started && timerActive
      ensures quiz == old(quiz) && answers == old(answers) && submitted == old(submitted)
      ensures score == old(score) && customMinutes == old(customMinutes)
    {
      timeLeft := customMinutes * 60;
      started := true;
      timerActive := true;
    }

    /** `handleOptionSelect`: before submission, record the key for that question and leave
        every other answer alone; after submission, change nothing. */
    method SelectOption(idx: nat, key: string)
      requires Valid()
      modifies this
      ensures Valid()
      ensures old(submitted) ==> answers == old(answers)
      ensures !old(submitted) ==> idx in answers && answers[idx] == key
      ensures forall j | j != idx :: AnswerAt(answers, j) == AnswerAt(old(answers), j)
      ensures quiz == old(quiz) && submitted == old(submitted) && score == old(score)
      ensures started == old(started) && timerActive == old(timerActive)
      ensures timeLeft == old(timeLeft) && customMinutes == old(customMinutes)
    {
      if submitted {
        return;
      }
      answers := answers[idx := key];
    }

    /** `handleSubmit`: count the matching answers in a loop, record the score, mark the quiz
        submitted and stop the timer; once submitted, a second call changes nothing. */
    method Submit()
      requires Valid()
      modifies this
      ensures Valid()
      ensures old(submitted) ==>
        score == old(score) && timerActive == old(timerActive) && submitted
      ensures !old(submitted) ==>
        submitted && !timerActive && score == CountCorrect(quiz, answers) && 0 <= score <= |quiz|
      ensures quiz == old(quiz) && answers == old(answers) && started == old(started)
      ensures timeLeft == old(timeLeft) && customMinutes == old(customMinutes)
    {
      if submitted {
        return;
      }
      var calculatedScore := 0;
      for idx := 0 to |quiz|
        invariant calculatedScore == CountCorrect(quiz[..idx], answers)
      {
        assert quiz[..idx + 1][..idx] == quiz[..idx];
        if AnswerAt(answers, idx) == CorrectOption(quiz[idx]) {
          calculatedScore := calculatedScore + 1;
        }
      }
      assert quiz[..|quiz|] == quiz;
      CountCorrectIsMatches(quiz, answers);
      score := calculatedScore;
      submitted := true;
      timerActive := false;
    }

    /** One firing of the countdown: while the timer runs with time left, take a second off;
        the timer effect then submits once the time reaches zero with the timer still on. */
    method Tick()
      requires Valid()
      modifies this
      ensures Valid()
      ensures old(timerActive) && old(timeLeft) > 0 ==> timeLeft == old(timeLeft) - 1
      ensures old(timerActive) && old(timeLeft) == 1 && !old(submitted) ==>
        submitted && !timerActive && score == CountCorrect(quiz, answers)
      ensures old(timerActive) && old(timeLeft) == 1 && old(submitted) ==>
        submitted && score == old(score) && timerActive
      ensures !(old(timerActive) && old(timeLeft) > 0) ==>
        timeLeft == old(timeLeft) && submitted == old(submitted) && score == old(score)
        && timerActive == old(timerActive)
      ensures old(timerActive) && old(timeLeft) > 1 ==>
        submitted == old(submitted) && score == old(score) && timerActive
      ensures quiz == old(quiz) && answers == old(answers) && started == old(started)
      ensures customMinutes == old(customMinutes)
    {
      if timerActive && timeLeft > 0 {
        timeLeft := timeLeft - 1;
        if timeLeft == 0 && timerActive {
          Submit();
        }
      }
    }
  }
}

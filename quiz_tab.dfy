/** The quiz screen: a state machine over the questions, the current
    question, the selected option, the score and the finished flag, driven by
    `generate`, `handleAnswer` and `next`.  The answers given so far are kept
    as ghost state so that the score can be tied to them. */
module QuizTab {
  import opened Wrappers
  import opened AiStream
  import opened MentorContext

  datatype Question = Question(question: string, options: seq<string>, correct: int, explanation: string)

  /** The body the quiz endpoint returns: `{questions, topic}`. */
  datatype QuizData = QuizData(questions: seq<Question>, topic: string)

  /** How many of `answers` (one chosen index per question, in order) are
      the correct option of their question. */
  function CountCorrect(questions: seq<Question>, answers: seq<int>): (n: nat)
    requires |answers| <= |questions|
    ensures n <= |answers|
  {
    if answers == [] then 0
    else
      var k := |answers| - 1;
      CountCorrect(questions, answers[..k]) + if answers[k] == questions[k].correct then 1 else 0
  }

  /** One more answer adds one exactly when it is correct. */
  lemma CountCorrectSnoc(questions: seq<Question>, answers: seq<int>, a: int)
    requires |answers| < |questions|
    ensures CountCorrect(questions, answers + [a]) ==
      CountCorrect(questions, answers) + if a == questions[|answers|].correct then 1 else 0
  {
    assert (answers + [a])[..|answers|] == answers;
  }

  /** Every answer correct gives the full score. */
  lemma {:induction false} AllCorrect(questions: seq<Question>, answers: seq<int>)
    requires |answers| <= |questions|
    requires forall k :: 0 <= k < |answers| ==> answers[k] == questions[k].correct
    ensures CountCorrect(questions, answers) == |answers|
  {
    if answers != [] {
      AllCorrect(questions, answers[..|answers| - 1]);
    }
  }

  /** Every answer wrong gives a score of zero. */
  lemma {:induction false} AllWrong(questions: seq<Question>, answers: seq<int>)
    requires |answers| <= |questions|
    requires forall k :: 0 <= k < |answers| ==> answers[k] != questions[k].correct
    ensures CountCorrect(questions, answers) == 0
  {
    if answers != [] {
      AllWrong(questions, answers[..|answers| - 1]);
    }
  }

  /** `finalScore || score` where `finalScore` is `score + 0` or `score`:
      the recorded score is the accumulated one whichever branch is taken,
      zero included. */
  function RecordedScore(selectedIsCorrect: bool, score: int): (r: int)
    ensures r == score
  {
    var finalScore := if selectedIsCorrect then score + 0 else score;
    if finalScore != 0 then finalScore else score
  }

  /** `current` is a question of the quiz; one answer per question before
      it, plus one for it once an option is selected; the score counts the
      correct ones; a finished quiz has every question answered. */
  ghost predicate Consistent(questions: seq<Question>, current: int, selected: Option<int>,
                             answers: seq<int>, score: int, finished: bool)
  {
    && (|questions| == 0 ==> current == 0 && selected == None && answers == [] && !finished)
    && (|questions| > 0 ==> 0 <= current < |questions|)
    && |answers| == current + (if selected.Some? then 1 else 0)
    && |answers| <= |questions|
    && (selected.Some? ==> answers[|answers| - 1] == selected.value)
    && score == CountCorrect(questions, answers)
    && (finished ==> selected.Some? && current == |questions| - 1)
  }

  /** Answering the question on screen keeps the state consistent. */
  lemma AnswerStep(questions: seq<Question>, current: int, answers: seq<int>, score: int, idx: int)
    requires Consistent(questions, current, None, answers, score, false) && |questions| > 0
    ensures Consistent(questions, current, Some(idx), answers + [idx],
                       score + (if idx == questions[current].correct then 1 else 0), false)
  {
    CountCorrectSnoc(questions, answers, idx);
  }

  /** Moving to the next question keeps it consistent. */
  lemma NextStep(questions: seq<Question>, current: int, selected: Option<int>, answers: seq<int>, score: int)
    requires Consistent(questions, current, selected, answers, score, false) && selected.Some?
    requires current < |questions| - 1
    ensures Consistent(questions, current + 1, None, answers, score, false)
  {
  }

  /** So does finishing on the last one, with every question answered. */
  lemma FinishStep(questions: seq<Question>, current: int, selected: Option<int>, answers: seq<int>, score: int)
    requires Consistent(questions, current, selected, answers, score, false) && selected.Some?
    requires |questions| > 0 && current == |questions| - 1
    ensures Consistent(questions, current, selected, answers, score, true) && |answers| == |questions|
  {
  }

  class QuizScreen {
    var questions: seq<Question>
    var current: int
    var selected: Option<int>
    var score: int
    var finished: bool
    var loading: bool
    var topic: string
    /** The message of the last error toast. */
    var lastError: Option<string>
    /** The option chosen for each question answered so far. */
    ghost var answers: seq<int>

    /** The quiz state is `Consistent`. */
    ghost predicate Valid()
      reads this
    {
      Consistent(questions, current, selected, answers, score, finished)
    }

    constructor()
      ensures Valid()
      ensures questions == [] && current == 0 && selected == None && score == 0
      ensures !finished && !loading && topic == "" && lastError == None
    {
      questions, current, selected, score := [], 0, None, 0;
      finished, loading, topic, lastError := false, false, "", None;
      answers := [];
    }

    /** `generate`: a successful call starts the new quiz from its first
        question; a failed one keeps the quiz and reports the message. */
    method Generate(resp: Response, decode: string -> Result<QuizData>, parseError: ErrorParser)
      requires Valid()
      modifies this
      ensures Valid() && !loading
      ensures var r := InvokeFunction(resp, decode, parseError);
        if r.Ok? then
          && questions == r.value.questions && topic == r.value.topic
          && current == 0 && selected == None && score == 0 && !finished
          && lastError == old(lastError)
        else
          && questions == old(questions) && topic == old(topic) && current == old(current)
          && selected == old(selected) && score == old(score) && finished == old(finished)
          && lastError == Some(r.message)
    {
      loading := true;
      var r := InvokeFunction(resp, decode, parseError);
      if r.Ok? {
        questions := r.value.questions;
        topic := r.value.topic;
        current := 0;
        selected := None;
        score := 0;
        finished := false;
        answers := [];
      } else {
        lastError := Some(r.message);
      }
      loading := false;
    }

    /** `handleAnswer(idx)` on the question on screen: only the first answer
        counts, and it scores one exactly when it is correct. */
    method HandleAnswer(idx: int)
      requires Valid() && |questions| > 0 && !finished
      modifies this
      ensures Valid()
      ensures old(selected).Some? ==> selected == old(selected) && score == old(score) && answers == old(answers)
      ensures old(selected).None? ==>
        && selected == Some(idx) && answers == old(answers) + [idx]
        && score == old(score) + (if idx == questions[current].correct then 1 else 0)
      ensures questions == old(questions) && current == old(current) && finished == old(finished)
      ensures topic == old(topic) && loading == old(loading) && lastError == old(lastError)
    {
      if selected.Some? {
        return;
      }
      AnswerStep(questions, current, answers, score, idx);
      selected := Some(idx);
      answers := answers + [idx];
      if idx == questions[current].correct {
        score := score + 1;
      }
    }

    /** `next`, offered once an option is selected: moves to the following
        question, or on the last one finishes the quiz and records its
        result.  `now` stands for `Date.now()`. */
    method Next(ctx: MentorProvider, now: int)
      requires Valid() && |questions| > 0 && !finished && selected.Some?
      modifies this, ctx
      ensures Valid()
      ensures old(current) < |questions| - 1 ==>
        && current == old(current) + 1 && selected == None && !finished
        && ctx.quizResults == old(ctx.quizResults)
      ensures old(current) == |questions| - 1 ==>
        && finished && current == old(current) && selected == old(selected)
        && |answers| == |questions| && score == CountCorrect(questions, answers)
        && ctx.quizResults == old(ctx.quizResults) + [QuizResult(topic, score, |questions|, now)]
      ensures questions == old(questions) && score == old(score) && answers == old(answers)
      ensures topic == old(topic) && loading == old(loading) && lastError == old(lastError)
      ensures ctx.interest == old(ctx.interest) && ctx.level == old(ctx.level)
      ensures ctx.chatsByDomain == old(ctx.chatsByDomain) && ctx.roadmap == old(ctx.roadmap)
      ensures ctx.topicsExplored == old(ctx.topicsExplored)
    {
      if current < |questions| - 1 {
        NextStep(questions, current, selected, answers, score);
        current := current + 1;
        selected := None;
      } else {
        FinishStep(questions, current, selected, answers, score);
        var finalScore := RecordedScore(selected == Some(questions[current].correct), score);
        finished := true;
        ctx.AddQuizResult(QuizResult(topic, finalScore, |questions|, now));
      }
    }
  }

  /** A finished quiz records a score between zero and the number of
      questions, equal to it when every answer was right. */
  lemma RecordedScoreBounds(questions: seq<Question>, answers: seq<int>)
    requires |answers| == |questions|
    ensures 0 <= CountCorrect(questions, answers) <= |questions|
    ensures (forall k :: 0 <= k < |answers| ==> answers[k] == questions[k].correct) ==>
      CountCorrect(questions, answers) == |questions|
  {
    if forall k :: 0 <= k < |answers| ==> answers[k] == questions[k].correct {
      AllCorrect(questions, answers);
    }
  }
}

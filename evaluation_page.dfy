/** The student's exam page: the debounced counter save, the progress figure,
    question navigation, answer editing, the merge of saved answers, the
    per-question status, the evaluate button's cooldown and the exam clock. */
module EvaluationPage {
  import opened Common
  import Countdown

  // ---------------------------------------------------------------------------
  // debounce

  /** A call of the debounced function, or the clock reaching a time. */
  datatype DebounceEvent<T> = CallAt(args: T, at: int) | ClockAt(at: int)

  /** The debouncer's one timer: the arguments it will run with and when. */
  datatype Pending<T> = Idle | Scheduled(args: T, due: int)

  /** One event: a call replaces whatever was scheduled; the clock runs the
      scheduled call once its time has come. */
  function DebounceStep<T>(wait: int, p: Pending<T>, e: DebounceEvent<T>): (r: (Pending<T>, Option<T>))
    ensures e.CallAt? ==> r == (Scheduled(e.args, e.at + wait), None)
    ensures e.ClockAt? && p.Scheduled? && p.due <= e.at ==> r == (Idle, Some(p.args))
    ensures e.ClockAt? && !(p.Scheduled? && p.due <= e.at) ==> r == (p, None)
  {
    match e
    case CallAt(args, at) => (Scheduled(args, at + wait), None)
    case ClockAt(at) =>
      if p.Scheduled? && p.due <= at then (Idle, Some(p.args)) else (p, None)
  }

  /** The arguments the wrapped function runs with, in order, over a run of events. */
  function DebounceRuns<T>(wait: int, p: Pending<T>, events: seq<DebounceEvent<T>>): seq<T>
    decreases |events|
  {
    if events == [] then []
    else
      var (q, ran) := DebounceStep(wait, p, events[0]);
      (if ran.Some? then [ran.value] else []) + DebounceRuns(wait, q, events[1..])
  }

  function DebounceFinal<T>(wait: int, p: Pending<T>, events: seq<DebounceEvent<T>>): Pending<T>
    decreases |events|
  {
    if events == [] then p else DebounceFinal(wait, DebounceStep(wait, p, events[0]).0, events[1..])
  }

  predicate AllCalls<T>(events: seq<DebounceEvent<T>>) {
    forall i :: 0 <= i < |events| ==> events[i].CallAt?
  }

  /** A burst of calls runs nothing and leaves only the last call scheduled. */
  lemma {:induction false} BurstSchedulesLast<T>(wait: int, p: Pending<T>, calls: seq<DebounceEvent<T>>)
    requires calls != [] && AllCalls(calls)
    decreases |calls|
    ensures DebounceRuns(wait, p, calls) == []
    ensures DebounceFinal(wait, p, calls) == Scheduled(calls[|calls| - 1].args, calls[|calls| - 1].at + wait)
  {
    if |calls| > 1 {
      BurstSchedulesLast(wait, DebounceStep(wait, p, calls[0]).0, calls[1..]);
    }
  }

  lemma {:induction false} RunsSplit<T>(wait: int, p: Pending<T>, a: seq<DebounceEvent<T>>, b: seq<DebounceEvent<T>>)
    ensures DebounceRuns(wait, p, a + b) == DebounceRuns(wait, p, a) + DebounceRuns(wait, DebounceFinal(wait, p, a), b)
    decreases |a|
  {
    if a != [] {
      assert (a + b)[1..] == a[1..] + b;
      RunsSplit(wait, DebounceStep(wait, p, a[0]).0, a[1..], b);
    } else {
      assert a + b == b;
    }
  }

  /** Last call wins: after a burst of calls, the clock reaching `wait` past
      the last call runs the function once, with the last call's arguments. */
  lemma LastCallWins<T>(wait: int, p: Pending<T>, calls: seq<DebounceEvent<T>>, t: int)
    requires calls != [] && AllCalls(calls)
    requires t >= calls[|calls| - 1].at + wait
    ensures DebounceRuns(wait, p, calls + [ClockAt(t)]) == [calls[|calls| - 1].args]
  {
    BurstSchedulesLast(wait, p, calls);
    RunsSplit(wait, p, calls, [ClockAt(t)]);
  }

  /** The clock alone runs a scheduled call at most once. */
  lemma {:induction false} ClockRunsAtMostOnce<T>(wait: int, p: Pending<T>, events: seq<DebounceEvent<T>>)
    requires forall i :: 0 <= i < |events| ==> events[i].ClockAt?
    ensures |DebounceRuns(wait, p, events)| <= (if p.Scheduled? then 1 else 0)
    ensures p.Scheduled? ==> DebounceRuns(wait, p, events) == [] || DebounceRuns(wait, p, events) == [p.args]
    decreases |events|
  {
    if events != [] {
      ClockRunsAtMostOnce(wait, DebounceStep(wait, p, events[0]).0, events[1..]);
    }
  }

  /** The closure returned by `debounce`: it owns the timer. */
  class Debouncer<T> {
    const wait: int
    var pending: Pending<T>

    constructor (wait: int)
      ensures this.wait == wait && pending == Idle
    {
      this.wait := wait;
      pending := Idle;
    }

    /** A call: clears the timer and starts a new one for these arguments. */
    method Call(args: T, now: int)
      modifies this
      ensures (pending, None) == DebounceStep(wait, old(pending), CallAt(args, now))
    {
      pending := Scheduled(args, now + wait);
    }

    /** The clock reaches `now`: a due timer fires, running the function. */
    method Advance(now: int) returns (ran: Option<T>)
      modifies this
      ensures (pending, ran) == DebounceStep(wait, old(pending), ClockAt(now))
    {
      ran := None;
      if pending.Scheduled? && pending.due <= now {
        ran := Some(pending.args);
        pending := Idle;
      }
    }
  }

  /** The counter save is debounced by one second. */
  const CounterSaveWait := 1000

  /** The counter write `updateCountersInDB` sends for a question. */
  datatype CounterWrite = CounterWrite(submissionId: int, questionId: int)

  /** What the debounced counter save does when its timer fires: it tests the
      submission id it captured, and writes nothing when that id is absent or 0. */
  function CounterSave(captured: Option<int>, questionId: int): (w: Option<CounterWrite>)
    ensures w.Some? <==> captured.Some? && captured.value != 0
    ensures w.Some? ==> w.value.submissionId == captured.value && w.value.questionId == questionId
  {
    match captured
    case Some(id) => if id != 0 then Some(CounterWrite(id, questionId)) else None
    case None => None
  }

  // ---------------------------------------------------------------------------
  // Answers and progress

  datatype Answer = Answer(questionId: int, answer: string, score: Option<real>, evaluated: bool)

  predicate Answered(a: Answer) {
    Trim(a.answer) != ""
  }

  /** The number of answers whose trimmed text is non-empty. */
  function CountAnswered(answers: seq<Answer>): (c: nat)
    ensures c <= |answers|
  {
    if answers == [] then 0 else (if Answered(answers[0]) then 1 else 0) + CountAnswered(answers[1..])
  }

  lemma DivBounds(x: int, d: int)
    requires d > 0
    ensures d * (x / d) <= x < d * (x / d) + d
  {
  }

  lemma MulMonotone(d: int, a: int, b: int)
    requires d > 0 && a <= b
    ensures d * a <= d * b
  {
  }

  lemma DivMonotone(x: int, y: int, d: int)
    requires d > 0 && x <= y
    ensures x / d <= y / d
  {
    DivBounds(x, d);
    DivBounds(y, d);
    if x / d > y / d {
      MulMonotone(d, y / d + 1, x / d);
    }
  }

  /** `Math.round(100 * answered / total)` taken exactly: the integer nearest
      to the ratio, with halves going up. */
  function RoundPercent(answered: nat, total: nat): (p: int)
    requires total > 0
    ensures (2 * total) * p <= 200 * answered + total < (2 * total) * p + 2 * total
  {
    DivBounds(200 * answered + total, 2 * total);
    (200 * answered + total) / (2 * total)
  }

  /** The progress percentage: 0 without answers, otherwise the rounded share
      of answered questions. */
  function CalculateProgress(answers: seq<Answer>): (p: int)
    ensures answers == [] ==> p == 0
    ensures answers != [] ==>
      (2 * |answers|) * p <= 200 * CountAnswered(answers) + |answers| < (2 * |answers|) * p + 2 * |answers|
  {
    if |answers| == 0 then 0 else RoundPercent(CountAnswered(answers), |answers|)
  }

  /** The progress lies in [0, 100]; it is 0 with nothing answered and 100
      with everything answered. */
  lemma ProgressBounds(answers: seq<Answer>)
    ensures 0 <= CalculateProgress(answers) <= 100
    ensures CountAnswered(answers) == 0 ==> CalculateProgress(answers) == 0
    ensures answers != [] && CountAnswered(answers) == |answers| ==> CalculateProgress(answers) == 100
  {
    if answers != [] {
      var n := |answers|;
      var a := CountAnswered(answers);
      var p := CalculateProgress(answers);
      if p > 100 {
        MulMonotone(2 * n, 101, p);
      }
      if p < 0 {
        MulMonotone(2 * n, p, -1);
      }
      if a == 0 && p > 0 {
        MulMonotone(2 * n, 1, p);
      }
      if a == n && p < 100 {
        MulMonotone(2 * n, p, 99);
      }
    }
  }

  /** More answered questions never show less progress. */
  lemma ProgressMonotone(a1: nat, a2: nat, total: nat)
    requires total > 0 && a1 <= a2
    ensures RoundPercent(a1, total) <= RoundPercent(a2, total)
  {
    DivMonotone(200 * a1 + total, 200 * a2 + total, 2 * total);
  }

  // ---------------------------------------------------------------------------
  // Navigation

  /** The index after a navigation, and whether the page moved (moving also
      clears the evaluation result). */
  datatype Nav = Nav(index: int, moved: bool)

  function GoToPrevious(index: int): (r: Nav)
    ensures r.moved <==> index > 0
    ensures r.index == if r.moved then index - 1 else index
  {
    if index > 0 then Nav(index - 1, true) else Nav(index, false)
  }

  /** `questionCount` is `None` while the exam is not loaded. */
  function GoToNext(index: int, questionCount: Option<nat>): (r: Nav)
    ensures r.moved <==> questionCount.Some? && index < questionCount.value - 1
    ensures r.index == if r.moved then index + 1 else index
  {
    if questionCount.Some? && index < questionCount.value - 1 then Nav(index + 1, true) else Nav(index, false)
  }

  function GoToQuestion(index: int, target: int, questionCount: Option<nat>): (r: Nav)
    ensures r.moved <==> questionCount.Some? && 0 <= target < questionCount.value
    ensures r.index == if r.moved then target else index
  {
    if questionCount.Some? && 0 <= target < questionCount.value then Nav(target, true) else Nav(index, false)
  }

  /** Every navigation keeps a valid index valid. */
  lemma NavigationKeepsIndexInBounds(index: int, target: int, n: nat)
    requires 0 <= index < n
    ensures 0 <= GoToPrevious(index).index < n
    ensures 0 <= GoToNext(index, Some(n)).index < n
    ensures 0 <= GoToQuestion(index, target, Some(n)).index < n
  {
  }

  /** Going forward and then back returns to the same question. */
  lemma NextThenPrevious(index: int, n: nat)
    requires 0 <= index
    requires GoToNext(index, Some(n)).moved
    ensures GoToPrevious(GoToNext(index, Some(n)).index) == Nav(index, true)
  {
  }

  // ---------------------------------------------------------------------------
  // Merging saved answers

  /** A stored answer row. */
  datatype SavedAnswer = SavedAnswer(questionId: int, answer: Option<string>, score: Option<real>)

  /** `saved.find(a => a.questionId === questionId)`. */
  function FindSaved(saved: seq<SavedAnswer>, questionId: int): (r: Option<SavedAnswer>)
    ensures r.Some? ==> r.value in saved && r.value.questionId == questionId
    ensures r.None? <==> forall s :: s in saved ==> s.questionId != questionId
  {
    if saved == [] then None
    else if saved[0].questionId == questionId then Some(saved[0])
    else FindSaved(saved[1..], questionId)
  }

  /** The first saved row for a question is the one used. */
  lemma {:induction false} FindSavedIsFirst(saved: seq<SavedAnswer>, questionId: int, i: int)
    requires 0 <= i < |saved| && saved[i].questionId == questionId
    requires forall j :: 0 <= j < i ==> saved[j].questionId != questionId
    ensures FindSaved(saved, questionId) == Some(saved[i])
  {
    if i > 0 {
      FindSavedIsFirst(saved[1..], questionId, i - 1);
    }
  }

  function DefaultAnswer(questionId: int): Answer {
    Answer(questionId, "", None, false)
  }

  /** The answer for one question: the saved text (or '' when it is missing or
      empty), the saved score, and `evaluated` exactly when a score is saved. */
  function MergeOne(questionId: int, saved: Option<seq<SavedAnswer>>): (a: Answer)
    ensures a.questionId == questionId
    ensures saved.None? || FindSaved(saved.value, questionId).None? ==> a == DefaultAnswer(questionId)
    ensures saved.Some? && FindSaved(saved.value, questionId).Some? ==>
      var s := FindSaved(saved.value, questionId).value;
      a.answer == OrEmpty(s.answer) && a.score == s.score && (a.evaluated <==> s.score.Some?)
  {
    if saved.None? then DefaultAnswer(questionId)
    else
      match FindSaved(saved.value, questionId)
      case None => DefaultAnswer(questionId)
      case Some(s) => Answer(questionId, OrElse(s.answer, Some("")).value, s.score, s.score.Some?)
  }

  /** The initial answers: one per question, in question order. `saved` is
      `None` when loading the saved answers failed. */
  function MergeAnswers(questionIds: seq<int>, saved: Option<seq<SavedAnswer>>): (r: seq<Answer>)
    ensures |r| == |questionIds|
    ensures forall i :: 0 <= i < |r| ==> r[i] == MergeOne(questionIds[i], saved)
  {
    if questionIds == [] then [] else [MergeOne(questionIds[0], saved)] + MergeAnswers(questionIds[1..], saved)
  }

  /** Every merged answer belongs to its question, and an answer is marked
      evaluated only when a score was saved for that question. */
  lemma MergedAnswersMatchQuestions(questionIds: seq<int>, saved: Option<seq<SavedAnswer>>, i: int)
    requires 0 <= i < |questionIds|
    ensures MergeAnswers(questionIds, saved)[i].questionId == questionIds[i]
    ensures MergeAnswers(questionIds, saved)[i].evaluated ==>
      saved.Some? && exists s :: s in saved.value && s.questionId == questionIds[i] && s.score.Some?
  {
    var a := MergeAnswers(questionIds, saved)[i];
    if a.evaluated {
      var s := FindSaved(saved.value, questionIds[i]).value;
      assert s in saved.value;
    }
  }

  // ---------------------------------------------------------------------------
  // Question status

  datatype Status = Unanswered | NotEvaluated | Correct(score: real) | Acceptable(score: real) | NeedsWork(shownScore: Option<real>)

  /** The status circle of the question at `index`; a missing entry counts as
      unanswered. */
  function QuestionStatus(answers: seq<Answer>, index: int): (s: Status)
    ensures !(0 <= index < |answers|) ==> s == Unanswered
    ensures 0 <= index < |answers| ==>
      var a := answers[index];
      (s == Unanswered <==> !Answered(a))
      && (s == NotEvaluated <==> Answered(a) && !a.evaluated)
      && (s.Correct? <==> Answered(a) && a.evaluated && a.score.Some? && 4.0 <= a.score.value <= 5.0)
      && (s.Acceptable? <==> Answered(a) && a.evaluated && a.score.Some? && 3.0 <= a.score.value < 4.0)
      && (s.NeedsWork? <==>
            Answered(a) && a.evaluated && (a.score.None? || a.score.value < 3.0 || a.score.value > 5.0))
      && (s.Correct? || s.Acceptable? ==> s.score == a.score.value)
      && (s.NeedsWork? ==> s.shownScore == a.score)
  {
    if !(0 <= index < |answers|) || !Answered(answers[index]) then Unanswered
    else
      var a := answers[index];
      if !a.evaluated then NotEvaluated
      else if a.score.Some? then
        if 4.0 <= a.score.value <= 5.0 then Correct(a.score.value)
        else if 3.0 <= a.score.value < 4.0 then Acceptable(a.score.value)
        else NeedsWork(a.score)
      else NeedsWork(None)
  }

  // ---------------------------------------------------------------------------
  // Exam clock

  /** `Math.max(0, end - now)`, and whether the page submits on this tick. */
  function TimerTick(endTime: int, now: int): (r: (int, bool))
    ensures endTime > now ==> r.0 == endTime - now
    ensures endTime <= now ==> r.0 == 0
    ensures r.1 <==> r.0 == 0
  {
    var diff := if endTime - now > 0 then endTime - now else 0;
    (diff, diff <= 0)
  }

  /** Auto-submission happens exactly from the end time on, and the time
      remaining never goes up as the clock advances. */
  lemma AutoSubmitAtEnd(endTime: int, now: int, later: int)
    requires now <= later
    ensures TimerTick(endTime, now).1 <==> now >= endTime
    ensures TimerTick(endTime, later).0 <= TimerTick(endTime, now).0
  {
  }

  // ---------------------------------------------------------------------------
  // The page session

  /** What the scoring service gives back: the call throws, or it replies with
      a grade that may be missing. */
  datatype ScoringReply = CallFailed | Replied(grade: Option<real>)

  /** The evaluate button waits this many seconds after an evaluation. */
  const CooldownSeconds := 30

  /** The answers, the current question and the evaluate cooldown of a loaded exam. */
  class Session {
    var answers: seq<Answer>
    var currentQuestionIndex: int
    var buttonCooldown: int
    var cooldownRunning: bool
    /** Whether an evaluation result is on screen. */
    var hasResult: bool
    /** The submission id (0 or absent disables saving). */
    const submissionId: Option<int>
    /** The debounced counter save, created once on the first render. */
    const counterSaver: Debouncer<int>
    /** The submission id the debounced save captured: the first render's,
        which is still null because the submission is created afterwards. */
    const counterSaveSubmission: Option<int>

    ghost predicate Valid()
      reads this
    {
      && (answers != [] ==> 0 <= currentQuestionIndex < |answers|)
      && 0 <= buttonCooldown <= CooldownSeconds
      && (cooldownRunning ==> buttonCooldown >= 1)
      && (!cooldownRunning ==> buttonCooldown == 0)
      && counterSaver.wait == CounterSaveWait
    }

    constructor (initial: seq<Answer>, submission: Option<int>)
      ensures Valid() && answers == initial && currentQuestionIndex == 0
      ensures buttonCooldown == 0 && !cooldownRunning && !hasResult && submissionId == submission
      ensures fresh(counterSaver) && counterSaver.pending == Idle && counterSaveSubmission == None
    {
      counterSaver := new Debouncer(CounterSaveWait);
      counterSaveSubmission := None;
      answers := initial;
      currentQuestionIndex := 0;
      buttonCooldown := 0;
      cooldownRunning := false;
      hasResult := false;
      submissionId := submission;
    }

    predicate Saving()
      reads this
    {
      submissionId.Some? && submissionId.value != 0
    }

    /** The student edits the current answer at time `now`: the entry gets the
        new text, loses its evaluation and score, and the debounced counter save
        is called for its question. */
    method HandleAnswerChange(value: string, now: int)
      requires Valid() && answers != []
      modifies this, counterSaver
      ensures Valid() && currentQuestionIndex == old(currentQuestionIndex)
      ensures answers == old(answers)[currentQuestionIndex :=
        old(answers)[currentQuestionIndex].(answer := value, evaluated := false, score := None)]
      ensures !hasResult
      ensures buttonCooldown == old(buttonCooldown) && cooldownRunning == old(cooldownRunning)
      ensures counterSaver.pending == if Saving()
        then DebounceStep(CounterSaveWait, old(counterSaver.pending), CallAt(old(answers)[currentQuestionIndex].questionId, now)).0
        else old(counterSaver.pending)
    {
      var updated := new Answer[|answers|](i requires 0 <= i < |answers| reads this => answers[i]);
      var i := currentQuestionIndex;
      updated[i] := updated[i].(answer := value);
      updated[i] := updated[i].(evaluated := false);
      updated[i] := updated[i].(score := None);
      answers := updated[..];
      hasResult := false;
      if Saving() {
        counterSaver.Call(answers[i].questionId, now);
      }
    }

    /** The clock reaches `now` for the counter save's timer: a due call runs
        the captured function, whose guard sees the first render's null id, so
        no counter write ever happens. */
    method CounterSaveTimer(now: int) returns (write: Option<CounterWrite>)
      requires Valid()
      modifies counterSaver
      ensures Valid()
      ensures var step := DebounceStep(CounterSaveWait, old(counterSaver.pending), ClockAt(now));
        counterSaver.pending == step.0
        && write == (if step.1.Some? then CounterSave(counterSaveSubmission, step.1.value) else None)
      ensures counterSaveSubmission == None ==> write == None
    {
      var ran := counterSaver.Advance(now);
      write := None;
      if ran.Some? {
        write := CounterSave(counterSaveSubmission, ran.value);
      }
    }

    method Previous()
      requires Valid()
      modifies this
      ensures Valid()
      ensures var nav := GoToPrevious(old(currentQuestionIndex));
        currentQuestionIndex == nav.index && hasResult == (old(hasResult) && !nav.moved)
      ensures answers == old(answers) && buttonCooldown == old(buttonCooldown) && cooldownRunning == old(cooldownRunning)
    {
      var nav := GoToPrevious(currentQuestionIndex);
      currentQuestionIndex := nav.index;
      if nav.moved {
        hasResult := false;
      }
    }

    method Next()
      requires Valid()
      modifies this
      ensures Valid()
      ensures var nav := GoToNext(old(currentQuestionIndex), Some(|answers|));
        currentQuestionIndex == nav.index && hasResult == (old(hasResult) && !nav.moved)
      ensures answers == old(answers) && buttonCooldown == old(buttonCooldown) && cooldownRunning == old(cooldownRunning)
    {
      var nav := GoToNext(currentQuestionIndex, Some(|answers|));
      currentQuestionIndex := nav.index;
      if nav.moved {
        hasResult := false;
      }
    }

    method GoTo(target: int)
      requires Valid()
      modifies this
      ensures Valid()
      ensures var nav := GoToQuestion(old(currentQuestionIndex), target, Some(|answers|));
        currentQuestionIndex == nav.index && hasResult == (old(hasResult) && !nav.moved)
      ensures answers == old(answers) && buttonCooldown == old(buttonCooldown) && cooldownRunning == old(cooldownRunning)
    {
      var nav := GoToQuestion(currentQuestionIndex, target, Some(|answers|));
      currentQuestionIndex := nav.index;
      if nav.moved {
        hasResult := false;
      }
    }

    /** Whether pressing the evaluate button reaches the scoring service. */
    predicate CanEvaluate()
      reads this
    {
      Saving() && 0 <= currentQuestionIndex < |answers|
      && Answered(answers[currentQuestionIndex]) && buttonCooldown <= 0
    }

    /** The evaluate button. `reply` is the scoring service's outcome: the
        call fails, or it replies, with or without a grade. A reply marks the
        answer evaluated with the reply's grade (none when it carries none),
        shows the result and starts the cooldown; a failed call, a blank answer
        or a running cooldown does nothing. */
    method EvaluateCurrentAnswer(reply: ScoringReply) returns (scorerCalled: bool)
      requires Valid()
      modifies this
      ensures Valid() && currentQuestionIndex == old(currentQuestionIndex)
      ensures scorerCalled <==> old(CanEvaluate())
      ensures scorerCalled && reply.Replied? ==>
        answers == old(answers)[currentQuestionIndex :=
          old(answers)[currentQuestionIndex].(evaluated := true, score := reply.grade)]
        && buttonCooldown == CooldownSeconds && cooldownRunning && hasResult
      ensures !(scorerCalled && reply.Replied?) ==>
        answers == old(answers) && buttonCooldown == old(buttonCooldown)
        && cooldownRunning == old(cooldownRunning) && hasResult == old(hasResult)
    {
      scorerCalled := CanEvaluate();
      if scorerCalled && reply.Replied? {
        var i := currentQuestionIndex;
        answers := answers[i := answers[i].(evaluated := true, score := reply.grade)];
        hasResult := true;
        buttonCooldown := CooldownSeconds;
        cooldownRunning := true;
      }
    }

    /** One callback of the cooldown interval. */
    method CooldownTick()
      requires Valid()
      modifies this
      ensures Valid() && answers == old(answers) && currentQuestionIndex == old(currentQuestionIndex)
      ensures hasResult == old(hasResult)
      ensures (buttonCooldown, cooldownRunning) == Countdown.Run(old(buttonCooldown), old(cooldownRunning), 1)
    {
      if cooldownRunning {
        var t := Countdown.Step(buttonCooldown);
        buttonCooldown := t.next;
        cooldownRunning := !t.stopped;
      }
    }
  }

  /** Right after an edit the answer shows as unanswered or as not yet evaluated. */
  lemma EditedAnswerIsNotEvaluated(answers: seq<Answer>, index: int, value: string)
    requires 0 <= index < |answers|
    ensures var edited := answers[index := answers[index].(answer := value, evaluated := false, score := None)];
      QuestionStatus(edited, index) == (if Trim(value) == "" then Unanswered else NotEvaluated)
  {
  }

  /** After an evaluation, further evaluation is refused for 29 ticks (the
      button's label shows the seconds left) and allowed again from the 30th. */
  lemma CooldownLastsThirtyTicks(k: nat)
    ensures k < CooldownSeconds ==> Countdown.Run(CooldownSeconds, true, k).0 > 0
    ensures k >= CooldownSeconds ==> Countdown.Run(CooldownSeconds, true, k) == (0, false)
  {
    Countdown.RunFrom(CooldownSeconds, k);
  }
}

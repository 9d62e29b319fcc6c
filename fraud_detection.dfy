/** The exam-integrity monitor of the student evaluation page: it classifies
    browser signals into charged violations, keeps the violation counter and
    the seconds spent away from the exam, and runs an edge-triggered
    developer-tools latch. Browser events arrive as method calls carrying the
    current clock reading `now` (milliseconds). */
module FraudDetection {
  import opened Common

  // ---------------------------------------------------------------------------
  // Counters and their durable mirror

  datatype Counters = Counters(fraudAttempts: int, timeOutsideEval: int)

  const NoCounters := Counters(0, 0)

  /** What the browser's local storage holds under the monitor's key: the raw
      text and the outcome of parsing it as a counter pair (None when parsing
      throws). */
  datatype StoredItem = StoredItem(text: string, parsed: Option<Counters>)

  /** The counters a session starts from: none outside a browser, none when
      nothing (or '') is stored, none when the stored text fails to parse,
      otherwise the stored pair. */
  function LoadInitialData(hasWindow: bool, stored: Option<StoredItem>): (c: Counters)
    ensures !hasWindow ==> c == NoCounters
    ensures hasWindow && stored.Some? && stored.value.text != "" && stored.value.parsed.Some?
      ==> c == stored.value.parsed.value
    ensures c != NoCounters ==>
      hasWindow && stored.Some? && stored.value.text != "" && stored.value.parsed == Some(c)
  {
    if !hasWindow then NoCounters
    else match stored
      case None => NoCounters
      case Some(item) =>
        if item.text == "" then NoCounters
        else match item.parsed
          case Some(c) => c
          case None => NoCounters
  }

  // ---------------------------------------------------------------------------
  // Browser signals

  datatype KeyEvent = KeyEvent(key: string, altKey: bool, ctrlKey: bool, shiftKey: bool, metaKey: bool)

  datatype Signal =
    | VisibilityChange(hidden: bool)
    | WindowBlur
    | WindowFocus
    | KeyDown(event: KeyEvent)
    | Resize(outerWidth: int, innerWidth: int, outerHeight: int, innerHeight: int)
    | Copy
    | Paste
    | DragStart
    | BeforePrint
    | ShareAttempt

  /** What the monitor does with a signal: charge a violation with a reason,
      reconcile away time, or nothing. */
  datatype Reaction = Charge(reason: string) | Reconcile | Ignore

  /** Alt+Tab, the bare Meta key, Ctrl+Escape and Ctrl+'n' (lower case only). */
  predicate SuspiciousKey(e: KeyEvent) {
    (e.altKey && e.key == "Tab") || e.key == "Meta"
    || (e.ctrlKey && e.key == "Escape") || (e.ctrlKey && e.key == "n")
  }

  /** The resize heuristic: the outer window became smaller than the viewport. */
  predicate WindowShrunk(outerWidth: int, innerWidth: int, outerHeight: int, innerHeight: int) {
    outerHeight < innerHeight || outerWidth < innerWidth
  }

  const KeyReasonPrefix := "uso de tecla sospechosa: "

  function Classify(s: Signal): (r: Reaction)
    ensures r.Reconcile? <==> s == WindowFocus || s == VisibilityChange(false)
    ensures s.KeyDown? ==> (r.Charge? <==> SuspiciousKey(s.event))
    ensures s.KeyDown? && r.Charge? ==> r.reason == KeyReasonPrefix + s.event.key
    ensures s.Resize? ==>
      (r.Charge? <==> WindowShrunk(s.outerWidth, s.innerWidth, s.outerHeight, s.innerHeight))
    ensures r.Ignore? ==> s.KeyDown? || s.Resize?
    ensures s == VisibilityChange(true) ==> r == Charge("cambio de pestaña")
    ensures s == WindowBlur ==> r == Charge("pérdida de foco de ventana")
    ensures s.Resize? && r.Charge? ==> r.reason == "cambio de tamaño de ventana"
    ensures s == Copy ==> r == Charge("intento de copiar contenido")
    ensures s == Paste ==> r == Charge("intento de pegar contenido")
    ensures s == DragStart ==> r == Charge("intento de arrastrar contenido")
    ensures s == BeforePrint ==> r == Charge("intento de imprimir")
    ensures s == ShareAttempt ==> r == Charge("intento de compartir contenido")
  {
    match s
    case VisibilityChange(hidden) => if hidden then Charge("cambio de pestaña") else Reconcile
    case WindowBlur => Charge("pérdida de foco de ventana")
    case WindowFocus => Reconcile
    case KeyDown(e) => if SuspiciousKey(e) then Charge(KeyReasonPrefix + e.key) else Ignore
    case Resize(ow, iw, oh, ih) =>
      if WindowShrunk(ow, iw, oh, ih) then Charge("cambio de tamaño de ventana") else Ignore
    case Copy => Charge("intento de copiar contenido")
    case Paste => Charge("intento de pegar contenido")
    case DragStart => Charge("intento de arrastrar contenido")
    case BeforePrint => Charge("intento de imprimir")
    case ShareAttempt => Charge("intento de compartir contenido")
  }

  /** Whether the handler cancels the browser's default action. It does so
      whether or not the violation is charged (the help panel only suppresses
      the charge). */
  predicate PreventsDefault(s: Signal) {
    (s.KeyDown? && SuspiciousKey(s.event)) || s == Copy || s == Paste || s == DragStart
  }

  // ---------------------------------------------------------------------------
  // Monitor state and its transitions

  datatype MonitorState = MonitorState(
    counters: Counters,
    leaveTime: Option<int>,
    fraudModalOpen: bool,
    fraudType: string,
    fraudMessage: string,
    devToolsModalOpen: bool,
    devtoolsLatch: bool,
    helpOpen: bool)

  /** The state of a freshly mounted monitor. */
  function Initial(c: Counters): MonitorState {
    MonitorState(c, None, false, "", "", false, false, false)
  }

  const FraudMessagePrefix := "Intento de fraude detectado: "

  /** The `onFraudDetected(type, message)` notification. */
  datatype FraudNotice = FraudNotice(fraudType: string, message: string)

  /** `registerFraudAttempt(reason)` at time `now`. With the help panel open
      only the away marker moves; otherwise the violation is charged. */
  function Attempt(st: MonitorState, reason: string, now: int): (r: MonitorState)
    ensures r.leaveTime == Some(now)
    ensures st.helpOpen ==> r == st.(leaveTime := Some(now))
    ensures !st.helpOpen ==>
      && r.counters == st.counters.(fraudAttempts := st.counters.fraudAttempts + 1)
      && r.fraudModalOpen && r.fraudType == reason && r.fraudMessage == FraudMessagePrefix + reason
      && r.devToolsModalOpen == st.devToolsModalOpen && r.devtoolsLatch == st.devtoolsLatch
      && r.helpOpen == st.helpOpen
  {
    if st.helpOpen then st.(leaveTime := Some(now))
    else st.(leaveTime := Some(now),
             fraudType := reason,
             fraudMessage := FraudMessagePrefix + reason,
             fraudModalOpen := true,
             counters := st.counters.(fraudAttempts := st.counters.fraudAttempts + 1))
  }

  /** The callback an attempt triggers: none while the help panel is open. */
  function AttemptNotice(st: MonitorState, reason: string): (n: Option<FraudNotice>)
    ensures n.Some? <==> !st.helpOpen
    ensures n.Some? ==> n.value.fraudType == reason && n.value.message == FraudMessagePrefix + reason
  {
    if st.helpOpen then None else Some(FraudNotice(reason, FraudMessagePrefix + reason))
  }

  /** Whole seconds between leaving at `leave` and returning at `now`, rounded
      down; not clamped, so a return stamped before the leave gives a negative
      value. */
  function AwaySeconds(leave: int, now: int): (secs: int)
    ensures 1000 * secs <= now - leave < 1000 * (secs + 1)
  {
    (now - leave) / 1000
  }

  /** `registerUserReturn()` at time `now`: closes the away window if one is
      open, adding its whole seconds to the time outside. */
  function UserReturn(st: MonitorState, now: int): (r: MonitorState)
    ensures st.leaveTime.None? ==> r == st
    ensures st.leaveTime.Some? ==>
      && r.leaveTime.None?
      && r.counters.timeOutsideEval == st.counters.timeOutsideEval + AwaySeconds(st.leaveTime.value, now)
      && r == st.(leaveTime := None, counters := r.counters)
      && r.counters.fraudAttempts == st.counters.fraudAttempts
  {
    match st.leaveTime
    case None => st
    case Some(leave) =>
      st.(leaveTime := None,
          counters := st.counters.(timeOutsideEval := st.counters.timeOutsideEval + AwaySeconds(leave, now)))
  }

  /** The value passed to `onTimeOutsideUpdated`: the new total, if a window was open. */
  function ReturnReport(st: MonitorState, now: int): (n: Option<int>)
    ensures n.Some? <==> st.leaveTime.Some?
    ensures n.Some? ==> n == Some(UserReturn(st, now).counters.timeOutsideEval)
  {
    match st.leaveTime
    case None => None
    case Some(leave) => Some(st.counters.timeOutsideEval + AwaySeconds(leave, now))
  }

  /** The developer-tools heuristic: a chrome gap over 160 pixels in either direction. */
  const DevtoolsThreshold := 160

  predicate DevtoolsGap(outerWidth: int, innerWidth: int, outerHeight: int, innerHeight: int) {
    outerWidth - innerWidth > DevtoolsThreshold || outerHeight - innerHeight > DevtoolsThreshold
  }

  /** One poll of the latch: it follows the sampled level, and fires only on a
      false-to-true edge. */
  function LatchStep(latch: bool, over: bool): (r: (bool, bool))
    ensures r.0 == over
    ensures r.1 <==> over && !latch
  {
    if over then (true, !latch) else (false, false)
  }

  function Poll(st: MonitorState, outerWidth: int, innerWidth: int, outerHeight: int, innerHeight: int): (r: MonitorState)
    ensures r.devtoolsLatch == DevtoolsGap(outerWidth, innerWidth, outerHeight, innerHeight)
    ensures r.devToolsModalOpen == (st.devToolsModalOpen || (r.devtoolsLatch && !st.devtoolsLatch))
    ensures r == st.(devtoolsLatch := r.devtoolsLatch, devToolsModalOpen := r.devToolsModalOpen)
  {
    var (latch, fired) := LatchStep(st.devtoolsLatch, DevtoolsGap(outerWidth, innerWidth, outerHeight, innerHeight));
    st.(devtoolsLatch := latch, devToolsModalOpen := st.devToolsModalOpen || fired)
  }

  /** A page re-render: the listener effect depends on the page's callbacks,
      which the page recreates on every render, so the effect is cleaned up and
      run again; the new run starts its own latch cleared and a new interval. */
  function Rearm(st: MonitorState): (r: MonitorState)
    ensures !r.devtoolsLatch
    ensures r.counters == st.counters && r.devToolsModalOpen == st.devToolsModalOpen
    ensures r.(devtoolsLatch := st.devtoolsLatch) == st
  {
    st.(devtoolsLatch := false)
  }

  /** With the gap sustained, a poll after the student has closed the
      developer-tools modal leaves it closed, but a re-render in between
      re-opens it on the next poll. */
  lemma RerenderRefires(st: MonitorState, ow: int, iw: int, oh: int, ih: int)
    requires DevtoolsGap(ow, iw, oh, ih)
    ensures var closed := Poll(st, ow, iw, oh, ih).(devToolsModalOpen := false);
      && !Poll(closed, ow, iw, oh, ih).devToolsModalOpen
      && Poll(Rearm(closed), ow, iw, oh, ih).devToolsModalOpen
  {
    var closed := Poll(st, ow, iw, oh, ih).(devToolsModalOpen := false);
    assert closed.devtoolsLatch;
    assert !Rearm(closed).devtoolsLatch;
  }

  /** A listener-level signal: classified, then charged or reconciled. */
  function Dispatch(st: MonitorState, s: Signal, now: int): (r: MonitorState)
  {
    match Classify(s)
    case Charge(reason) => Attempt(st, reason, now)
    case Reconcile => UserReturn(st, now)
    case Ignore => st
  }

  // ---------------------------------------------------------------------------
  // Properties over event sequences

  /** What reaches the monitor: a timed browser signal, the help panel opening
      or closing, a developer-tools poll, or a re-render of the page. */
  datatype Event =
    | Sig(signal: Signal, now: int)
    | Help(open: bool)
    | DevtoolsPoll(outerWidth: int, innerWidth: int, outerHeight: int, innerHeight: int)
    | Rerender

  /** One event; `active` is whether listeners are installed (a submission id
      is known). Without listeners only the help flag moves. */
  function Step(st: MonitorState, active: bool, e: Event): MonitorState {
    match e
    case Sig(s, now) => if active then Dispatch(st, s, now) else st
    case Help(open) => st.(helpOpen := open)
    case DevtoolsPoll(ow, iw, oh, ih) => if active then Poll(st, ow, iw, oh, ih) else st
    case Rerender => if active then Rearm(st) else st
  }

  /** Replays events one `Step` at a time. */
  function Replay(st: MonitorState, active: bool, events: seq<Event>): MonitorState
    decreases |events|
  {
    if events == [] then st else Replay(Step(st, active, events[0]), active, events[1..])
  }

  predicate Charges(e: Event) {
    e.Sig? && Classify(e.signal).Charge?
  }

  /** The number of events that classify as a charged violation. */
  function ChargeCount(events: seq<Event>): nat {
    if events == [] then 0 else (if Charges(events[0]) then 1 else 0) + ChargeCount(events[1..])
  }

  predicate NoHelpChange(events: seq<Event>) {
    forall i :: 0 <= i < |events| ==> !events[i].Help?
  }

  /** The violation counter never decreases. */
  lemma {:induction false} FraudAttemptsMonotone(st: MonitorState, active: bool, events: seq<Event>)
    ensures Replay(st, active, events).counters.fraudAttempts >= st.counters.fraudAttempts
    decreases |events|
  {
    if events != [] {
      var next := Step(st, active, events[0]);
      assert next.counters.fraudAttempts >= st.counters.fraudAttempts;
      FraudAttemptsMonotone(next, active, events[1..]);
    }
  }

  /** With the help panel closed throughout, every qualifying signal adds
      exactly one violation: the counter grows by the number of charging
      signals, never more and never less. */
  lemma {:induction false} ClosedPanelChargesEachSignal(st: MonitorState, events: seq<Event>)
    requires !st.helpOpen && NoHelpChange(events)
    ensures Replay(st, true, events).counters.fraudAttempts == st.counters.fraudAttempts + ChargeCount(events)
    decreases |events|
  {
    if events != [] {
      var next := Step(st, true, events[0]);
      assert next.counters.fraudAttempts == st.counters.fraudAttempts + (if Charges(events[0]) then 1 else 0);
      assert !next.helpOpen;
      assert NoHelpChange(events[1..]) by {
        forall i | 0 <= i < |events[1..]| ensures !events[1..][i].Help? { assert events[1..][i] == events[i + 1]; }
      }
      ClosedPanelChargesEachSignal(next, events[1..]);
    }
  }

  /** With the help panel open throughout, no signal is charged and the
      violation modal never opens. */
  lemma {:induction false} OpenPanelChargesNothing(st: MonitorState, active: bool, events: seq<Event>)
    requires st.helpOpen && NoHelpChange(events)
    ensures Replay(st, active, events).counters.fraudAttempts == st.counters.fraudAttempts
    ensures Replay(st, active, events).fraudModalOpen == st.fraudModalOpen
    decreases |events|
  {
    if events != [] {
      var next := Step(st, active, events[0]);
      assert next.counters.fraudAttempts == st.counters.fraudAttempts;
      assert next.fraudModalOpen == st.fraudModalOpen && next.helpOpen;
      assert NoHelpChange(events[1..]) by {
        forall i | 0 <= i < |events[1..]| ensures !events[1..][i].Help? { assert events[1..][i] == events[i + 1]; }
      }
      OpenPanelChargesNothing(next, active, events[1..]);
    }
  }

  /** Without a submission id no listener is installed: signals and polls
      change nothing but the help flag. */
  lemma {:induction false} InactiveMonitorIgnoresSignals(st: MonitorState, events: seq<Event>)
    ensures Replay(st, false, events).(helpOpen := st.helpOpen) == st
    decreases |events|
  {
    if events != [] {
      var next := Step(st, false, events[0]);
      InactiveMonitorIgnoresSignals(next, events[1..]);
    }
  }

  function EventTime(e: Event): Option<int> {
    if e.Sig? then Some(e.now) else None
  }

  /** Timestamps never go backwards, and none precedes `from`. */
  predicate ChronologicalFrom(from: int, events: seq<Event>) {
    forall i :: 0 <= i < |events| && events[i].Sig? ==>
      from <= events[i].now
      && forall j :: i < j < |events| && events[j].Sig? ==> events[i].now <= events[j].now
  }

  /** On a clock that does not go backwards (no return stamped before the
      leave it closes), the time outside never decreases. */
  lemma {:induction false} TimeOutsideMonotone(st: MonitorState, active: bool, from: int, events: seq<Event>)
    requires ChronologicalFrom(from, events)
    requires st.leaveTime.Some? ==> st.leaveTime.value <= from
    ensures Replay(st, active, events).counters.timeOutsideEval >= st.counters.timeOutsideEval
    decreases |events|
  {
    if events != [] {
      var next := Step(st, active, events[0]);
      var from' := if events[0].Sig? then events[0].now else from;
      assert next.counters.timeOutsideEval >= st.counters.timeOutsideEval;
      assert next.leaveTime.Some? ==> next.leaveTime.value <= from';
      assert ChronologicalFrom(from', events[1..]) by {
        forall i | 0 <= i < |events[1..]| && events[1..][i].Sig?
          ensures from' <= events[1..][i].now
          ensures forall j :: i < j < |events[1..]| && events[1..][j].Sig? ==> events[1..][i].now <= events[1..][j].now
        {
          assert events[1..][i] == events[i + 1];
          forall j | i < j < |events[1..]| && events[1..][j].Sig?
            ensures events[1..][i].now <= events[1..][j].now
          {
            assert events[1..][j] == events[j + 1];
          }
        }
      }
      TimeOutsideMonotone(next, active, from', events[1..]);
    }
  }

  /** The time outside is not clamped: a return whose timestamp lies over a
      second before the leave it closes lowers the total. */
  lemma EarlyReturnLowersTimeOutside(st: MonitorState, leave: int, now: int)
    requires st.leaveTime == Some(leave) && now <= leave - 1000
    ensures UserReturn(st, now).counters.timeOutsideEval < st.counters.timeOutsideEval
  {
  }

  /** Leaving twice before returning: only the latest leave counts. */
  lemma LatestLeaveCounts(st: MonitorState, reason1: string, reason2: string, t1: int, t2: int, t3: int)
    ensures var after := Dispatch(Attempt(Attempt(st, reason1, t1), reason2, t2), WindowFocus, t3);
      after.counters.timeOutsideEval == st.counters.timeOutsideEval + AwaySeconds(t2, t3)
      && after.leaveTime.None?
  {
  }

  /** A tab hidden at `t` and shown again twelve seconds later, with the help
      panel closed: one violation ("cambio de pestaña") and twelve seconds away. */
  lemma TabSwitchScenario(st: MonitorState, t: int)
    requires !st.helpOpen
    ensures var after := Replay(st, true, [Sig(VisibilityChange(true), t), Sig(VisibilityChange(false), t + 12000)]);
      && after.counters.fraudAttempts == st.counters.fraudAttempts + 1
      && after.counters.timeOutsideEval == st.counters.timeOutsideEval + 12
      && after.fraudType == "cambio de pestaña"
      && after.leaveTime.None?
  {
    var s1 := Dispatch(st, VisibilityChange(true), t);
    var evs := [Sig(VisibilityChange(true), t), Sig(VisibilityChange(false), t + 12000)];
    assert evs[1..] == [Sig(VisibilityChange(false), t + 12000)];
    assert Replay(st, true, evs) == Replay(s1, true, evs[1..]);
    assert evs[1..][1..] == [];
    assert AwaySeconds(t, t + 12000) == 12;
  }

  // ---------------------------------------------------------------------------
  // The developer-tools latch over a run of polls

  /** Replays the latch over sampled levels; yields the final latch and the
      number of times it fired. */
  function LatchRun(latch: bool, levels: seq<bool>): (bool, nat)
    decreases |levels|
  {
    if levels == [] then (latch, 0)
    else
      var (l, fired) := LatchStep(latch, levels[0]);
      var (final, n) := LatchRun(l, levels[1..]);
      (final, n + if fired then 1 else 0)
  }

  /** Whether sample `i` is a rising edge: high, after a low sample (or a low
      latch before the first sample). */
  predicate RisingAt(latch: bool, levels: seq<bool>, i: int)
    requires 0 <= i < |levels|
  {
    levels[i] && !(if i == 0 then latch else levels[i - 1])
  }

  function RisingEdges(latch: bool, levels: seq<bool>, upTo: nat): nat
    requires upTo <= |levels|
  {
    if upTo == 0 then 0
    else RisingEdges(latch, levels, upTo - 1) + if RisingAt(latch, levels, upTo - 1) then 1 else 0
  }

  lemma {:induction false} RisingEdgesShift(latch: bool, levels: seq<bool>, upTo: nat)
    requires 1 <= upTo <= |levels|
    ensures RisingEdges(latch, levels, upTo)
         == (if RisingAt(latch, levels, 0) then 1 else 0) + RisingEdges(levels[0], levels[1..], upTo - 1)
  {
    if upTo > 1 {
      RisingEdgesShift(latch, levels, upTo - 1);
      assert RisingAt(latch, levels, upTo - 1) == RisingAt(levels[0], levels[1..], upTo - 2);
    }
  }

  /** Within one run of the listener effect (between two re-renders), the latch
      fires once per false-to-true edge of the sampled level, and ends equal to
      the last sample. */
  lemma {:induction false} LatchFiresOncePerEdge(latch: bool, levels: seq<bool>)
    ensures LatchRun(latch, levels).1 == RisingEdges(latch, levels, |levels|)
    ensures LatchRun(latch, levels).0 == if levels == [] then latch else levels[|levels| - 1]
    decreases |levels|
  {
    if levels != [] {
      LatchFiresOncePerEdge(levels[0], levels[1..]);
      RisingEdgesShift(latch, levels, |levels|);
    }
  }

  /** Within one run of the listener effect, polls that stay above the
      threshold while the latch is set never fire again. */
  lemma {:induction false} SustainedGapDoesNotRefire(levels: seq<bool>)
    requires forall i :: 0 <= i < |levels| ==> levels[i]
    ensures LatchRun(true, levels) == (true, 0)
    decreases |levels|
  {
    if levels != [] {
      SustainedGapDoesNotRefire(levels[1..]);
    }
  }

  /** The polls of successive runs of the listener effect, one sequence of
      sampled levels per run: every run starts with its latch cleared. Yields
      the number of times the modal was raised. */
  function FiresAcrossRenders(runs: seq<seq<bool>>): nat
    decreases |runs|
  {
    if runs == [] then 0 else LatchRun(false, runs[0]).1 + FiresAcrossRenders(runs[1..])
  }

  /** With the gap sustained, the modal is raised once in every run of the
      effect that polls at all: each re-render re-arms the latch. */
  lemma {:induction false} SustainedGapFiresOncePerRender(runs: seq<seq<bool>>)
    requires forall k :: 0 <= k < |runs| ==> runs[k] != []
    requires forall k, i :: 0 <= k < |runs| && 0 <= i < |runs[k]| ==> runs[k][i]
    ensures FiresAcrossRenders(runs) == |runs|
    decreases |runs|
  {
    if runs != [] {
      var levels := runs[0];
      assert levels[0];
      SustainedGapDoesNotRefire(levels[1..]);
      assert LatchRun(false, levels).1 == 1;
      SustainedGapFiresOncePerRender(runs[1..]);
    }
  }

  // ---------------------------------------------------------------------------
  // The monitor as the page holds it

  /** The notifications one browser signal produces. */
  datatype SignalOutcome = SignalOutcome(prevented: bool, notice: Option<FraudNotice>, timeReport: Option<int>)

  class Monitor {
    var fraudAttempts: int
    var timeOutsideEval: int
    var leaveTime: Option<int>
    var isFraudModalOpen: bool
    var currentFraudType: string
    var currentFraudMessage: string
    var isDevToolsModalOpen: bool
    /** The help-panel suppression flag (a ref in the source). */
    var isHelpModalOpen: bool
    /** The developer-tools latch, local to the current run of the listener
        effect. */
    var devtoolsOpen: bool
    /** The durable mirror, rewritten whenever a counter changes. */
    var stored: Counters
    /** Listeners are installed only for a truthy submission id. */
    const submissionId: Option<int>

    function State(): MonitorState
      reads this
    {
      MonitorState(Counters(fraudAttempts, timeOutsideEval), leaveTime, isFraudModalOpen,
                   currentFraudType, currentFraudMessage, isDevToolsModalOpen, devtoolsOpen, isHelpModalOpen)
    }

    ghost predicate Valid()
      reads this
    {
      stored == State().counters
    }

    predicate Active()
      reads this
    {
      submissionId.Some? && submissionId.value != 0
    }

    constructor (initial: Counters, submission: Option<int>)
      ensures Valid() && State() == Initial(initial) && submissionId == submission
    {
      fraudAttempts, timeOutsideEval := initial.fraudAttempts, initial.timeOutsideEval;
      leaveTime := None;
      isFraudModalOpen, isDevToolsModalOpen := false, false;
      currentFraudType, currentFraudMessage := "", "";
      isHelpModalOpen, devtoolsOpen := false, false;
      stored := initial;
      submissionId := submission;
    }

    method RegisterFraudAttempt(reason: string, now: int) returns (notice: Option<FraudNotice>)
      requires Valid()
      modifies this
      ensures Valid() && State() == Attempt(old(State()), reason, now)
      ensures notice == AttemptNotice(old(State()), reason)
    {
      notice := AttemptNotice(State(), reason);
      leaveTime := Some(now);
      if !isHelpModalOpen {
        currentFraudType := reason;
        currentFraudMessage := FraudMessagePrefix + reason;
        isFraudModalOpen := true;
        fraudAttempts := fraudAttempts + 1;
        stored := Counters(fraudAttempts, timeOutsideEval);
      }
    }

    method RegisterUserReturn(now: int) returns (report: Option<int>)
      requires Valid()
      modifies this
      ensures Valid() && State() == UserReturn(old(State()), now)
      ensures report == ReturnReport(old(State()), now)
    {
      report := None;
      if leaveTime.Some? {
        var timeAway := AwaySeconds(leaveTime.value, now);
        leaveTime := None;
        timeOutsideEval := timeOutsideEval + timeAway;
        stored := Counters(fraudAttempts, timeOutsideEval);
        report := Some(timeOutsideEval);
      }
    }

    /** A browser signal reaching the installed listeners. */
    method HandleSignal(s: Signal, now: int) returns (outcome: SignalOutcome)
      requires Valid()
      modifies this
      ensures Valid()
      ensures State() == if Active() then Dispatch(old(State()), s, now) else old(State())
      ensures outcome.prevented <==> Active() && PreventsDefault(s)
      ensures outcome.notice == if Active() && Classify(s).Charge? then AttemptNotice(old(State()), Classify(s).reason) else None
      ensures outcome.timeReport == if Active() && Classify(s).Reconcile? then ReturnReport(old(State()), now) else None
    {
      outcome := SignalOutcome(false, None, None);
      if Active() {
        match Classify(s)
        case Charge(reason) =>
          var n := RegisterFraudAttempt(reason, now);
          outcome := SignalOutcome(PreventsDefault(s), n, None);
        case Reconcile =>
          var r := RegisterUserReturn(now);
          outcome := SignalOutcome(false, None, r);
        case Ignore =>
      }
    }

    /** One run of the developer-tools interval. */
    method PollDevtools(outerWidth: int, innerWidth: int, outerHeight: int, innerHeight: int) returns (fired: bool)
      requires Valid()
      modifies this
      ensures Valid()
      ensures State() == if Active() then Poll(old(State()), outerWidth, innerWidth, outerHeight, innerHeight) else old(State())
      ensures fired <==> Active() && DevtoolsGap(outerWidth, innerWidth, outerHeight, innerHeight) && !old(devtoolsOpen)
    {
      fired := false;
      if Active() {
        if DevtoolsGap(outerWidth, innerWidth, outerHeight, innerHeight) {
          if !devtoolsOpen {
            devtoolsOpen := true;
            isDevToolsModalOpen := true;
            fired := true;
          }
        } else {
          devtoolsOpen := false;
        }
      }
    }

    /** A re-render of the page: the listener effect runs again with a cleared latch. */
    method Rerender()
      requires Valid()
      modifies this`devtoolsOpen
      ensures Valid() && State() == if Active() then Rearm(old(State())) else old(State())
    {
      if Active() {
        devtoolsOpen := false;
      }
    }

    method SetHelpModalOpen(open: bool)
      requires Valid()
      modifies this`isHelpModalOpen
      ensures Valid() && State() == old(State()).(helpOpen := open)
    {
      isHelpModalOpen := open;
    }

    /** The page's setter for the violation modal (used on dismissal and by the
      global key guard); counters are untouched. */
    method SetFraudModalOpen(open: bool)
      requires Valid()
      modifies this`isFraudModalOpen
      ensures Valid() && State() == old(State()).(fraudModalOpen := open)
    {
      isFraudModalOpen := open;
    }

    method SetDevToolsModalOpen(open: bool)
      requires Valid()
      modifies this`isDevToolsModalOpen
      ensures Valid() && State() == old(State()).(devToolsModalOpen := open)
    {
      isDevToolsModalOpen := open;
    }
  }
}

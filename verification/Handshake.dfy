/** Threads and coroutines, one atomic step at a time: submitters and stoppers on foreign threads,
    the worker's main coroutine, its persist loop, and the callbacks queued on its event loop.
    Event counts stand for the events; clocks and storage are choices of the environment. */
module Handshake {
  import opened Basics

  datatype Settings = Settings(capacity: nat, persistRows: nat)

  datatype Callback = SetWake | SetStop

  /** `self._loop`: not yet published, running, or finished. */
  datatype Loop = Unpublished | Live | Finished

  /** Where the persist loop stands. It runs from one await to the next without yielding. */
  datatype Persist =
    | Unstarted
    | Draining
    | Storing
    | Checking
    | Clearing
    | Parked
    | Sleeping
    | Returned
    | Raised

  /** Where the worker thread stands. */
  datatype Main =
    | NotStarted
    | Opening
    | Publishing
    | Flagging
    | Waiting
    | Joining
    | Ended(failed: bool)
    | Cleaning(failed: bool)
    | Exiting(failed: bool)
    | Gone(failed: bool)

  datatype Shown = NEW | STARTING | RUNNING | STOPPING | STOPPED | FAILED

  /** The worker thread and what the service shows. History: `early`, a stop request came before the
      service was ready; `late`, one found the thread still alive although its outcome was already
      recorded. */
  datatype Out = Out(main: Main, shown: Shown, early: bool, late: bool)

  /** The event loop with its queued callbacks and the two events they set. */
  datatype Bus = Bus(loop: Loop, callbacks: seq<Callback>, wake: bool, stopAsync: bool)

  /** `signalling` submitters are between put and signal; `locked` stoppers are between the lock and
      the flag, `flagged` ones between the flag and the signal. */
  datatype Calls = Calls(
    accepting: bool, signalling: nat, locked: nat, flagged: nat, stopRequested: bool, deadline: bool)

  /** The persist loop and its events. `sawEmpty`: the last drain ended on an empty queue. */
  datatype Work = Work(ingress: nat, held: nat, persist: Persist, sawEmpty: bool)

  datatype State = State(out: Out, bus: Bus, calls: Calls, work: Work) {
    /** The worker thread moves on to a stage. */
    function At(main: Main): State {
      this.(out := out.(main := main))
    }

    /** The persist loop moves on. */
    function Does(persist: Persist): State {
      this.(work := work.(persist := persist))
    }

    /** The service takes no more events. */
    function Shut(): State {
      this.(calls := calls.(accepting := false))
    }

    function Showing(shown: Shown): State {
      this.(out := out.(shown := shown))
    }

    function Open(): State {
      this.(calls := calls.(accepting := true))
    }

    /** `n` events more in the queue. */
    function Queued(n: nat): State {
      this.(work := work.(ingress := work.ingress + n))
    }

    /** `n` events more accepted, their submitters about to signal. */
    function Submitted(n: nat): State {
      Queued(n).(calls := calls.(signalling := calls.signalling + n))
    }

    /** The event loop is published. */
    function Heard(): State {
      this.(bus := bus.(loop := Live))
    }

    /** The event loop is over. */
    function Loopless(): State {
      this.(bus := bus.(loop := Finished, callbacks := []))
    }
  }

  const Initial := State(
                     Out(NotStarted, NEW, false, false), Bus(Unpublished, [], false, false),
                     Calls(false, 0, 0, 0, false, false), Work(0, 0, Unstarted, false))

  /** What the worker thread itself does. */
  datatype MainStep =
    | Ready
    | Publish
    | CheckFlag
    | SeeStop
    | LoopEnds(failed: bool)
    | Record
    | Finish(cleanupFailed: bool)
    | Exit

  /** What other threads do. */
  datatype CallerStep =
    | Start
    | Put
    | Signal
    | StopLock(timed: bool)
    | StaleStop
    | StopFlag
    | StopSignal

  /** What the event loop and the persist loop do. */
  datatype LoopStep =
    | RunCallback
    | DrainOne
    | DrainEnds
    | Store(stored: bool)
    | StoreRaises
    | Check(expired: bool)
    | Clear
    | Wake(timeout: bool)
    | SleepOver

  datatype Label = Thread(m: MainStep) | Caller(a: CallerStep) | Coroutine(p: LoopStep)

  /** The loop's thread is free: the persist loop is at an await, or not there. */
  predicate Yielded(s: State) {
    var p := s.work.persist;
    p.Unstarted? || p.Parked? || p.Sleeping? || p.Returned? || p.Raised?
  }

  predicate Alive(s: State) {
    !s.out.main.NotStarted? && !s.out.main.Gone?
  }

  predicate Opened(s: State) {
    !s.out.main.NotStarted? && !s.out.main.Opening?
  }

  function Queue(s: State, c: Callback): State {
    if s.bus.loop.Live? then s.(bus := s.bus.(callbacks := s.bus.callbacks + [c])) else s
  }

  /** `stop` up to the end of its locked region, and the timeout branch of `start` (not timed). */
  function Lock(s: State, timed: bool): State {
    if timed && s.out.main.NotStarted? then s.Shut().Showing(if s.out.shown.NEW? then STOPPED else s.out.shown)
    else if !Alive(s) then s.Shut()
    else
      var recorded := (s.out.main.Cleaning? && s.out.main.failed) || s.out.main.Exiting?;
      var shown := if timed then STOPPING else s.out.shown;
      var late := s.out.late || (timed && recorded);
      var calls := s.calls.(locked := s.calls.locked + 1, deadline := s.calls.deadline || timed);
      s.(out := s.out.(shown := shown, early := s.out.early || s.out.main.Opening?, late := late),
                                                calls := calls).Shut()
  }

  function NextMain(s: State, m: MainStep): Option<State> {
    match m
    case Ready =>
      if !s.out.main.Opening? then None
      else if s.calls.stopRequested then Some(s.At(Publishing).Showing(STOPPING).Shut())
      else Some(s.At(Publishing).Showing(RUNNING).Open())
    case Publish =>
      if s.out.main.Publishing? then Some(s.At(Flagging).Heard()) else None
    case CheckFlag =>
      if s.out.main.Flagging?
      then Some(s.At(Waiting).Does(Draining).(bus := s.bus.(stopAsync := s.bus.stopAsync || s.calls.stopRequested)))
      else None
    case SeeStop =>
      if s.out.main.Waiting? && s.bus.stopAsync && Yielded(s) then Some(s.At(Joining).Showing(STOPPING).Shut())
      else None
    case LoopEnds(failed) => EndLoop(s, failed)
    case Record =>
      if !s.out.main.Ended? then None
      else if s.out.main.failed then Some(s.At(Cleaning(true)).Showing(FAILED).Shut())
      else Some(s.At(Cleaning(false)))
    case Finish(cleanupFailed) =>
      if !s.out.main.Cleaning? then None
      else
        var shown := if s.out.main.failed then s.out.shown else if cleanupFailed then FAILED else STOPPED;
        Some(s.At(Exiting(s.out.main.failed || cleanupFailed)).Showing(shown).Shut())
    case Exit => if s.out.main.Exiting? then Some(s.At(Gone(s.out.main.failed))) else None
  }

  /** `_run` leaves its body: after a success the persist loop has returned; a failure can come from
      anywhere, the delivery coroutine included. */
  function EndLoop(s: State, failed: bool): Option<State> {
    if failed && (s.out.main.Opening? || s.out.main.Publishing?)
    then Some(s.At(Ended(true)).(bus := s.bus.(loop := Finished)))
    else if failed && (s.out.main.Flagging? || s.out.main.Waiting? || s.out.main.Joining?) && Yielded(s)
      then Some(s.At(Ended(true)).Loopless())
      else if !failed && s.out.main.Joining? && s.work.persist.Returned? then Some(s.At(Ended(false)).Loopless())
        else None
  }

  function NextCaller(c: Settings, s: State, a: CallerStep): Option<State> {
    match a
    case Start =>
      if s.out.main.NotStarted? && s.out.shown.NEW? then Some(s.At(Opening).Showing(STARTING)) else None
    case Put =>
      if s.calls.accepting && s.work.ingress < c.capacity
      then Some(s.Submitted(1)) else None
    case Signal =>
      if s.calls.signalling > 0
      then Some(Queue(s, SetWake).(calls := s.calls.(signalling := s.calls.signalling - 1)))
      else None
    case StopLock(timed) => Some(Lock(s, timed))
    // a stop call that looked for the thread before start created it finds nothing to stop
    case StaleStop => Some(s.Shut())
    case StopFlag =>
      if s.calls.locked > 0
      then
        var calls := s.calls.(locked := s.calls.locked - 1, flagged := s.calls.flagged + 1, stopRequested := true);
        Some(s.(calls := calls))
      else None
    case StopSignal =>
      if s.calls.flagged > 0
      then Some(Queue(s, SetStop).(calls := s.calls.(flagged := s.calls.flagged - 1)))
      else None
  }

  function NextLoop(c: Settings, s: State, p: LoopStep): Option<State> {
    var work := s.work;
    match p
    case RunCallback =>
      if s.bus.callbacks == [] || !s.bus.loop.Live? || !Yielded(s) then None
      else if s.bus.callbacks[0].SetWake?
      then Some(s.(bus := s.bus.(callbacks := s.bus.callbacks[1..], wake := true)))
      else Some(s.(bus := s.bus.(callbacks := s.bus.callbacks[1..], stopAsync := true)))
    case DrainOne =>
      if work.persist.Draining? && work.held < c.persistRows && work.ingress > 0
      then Some(s.(work := work.(ingress := work.ingress - 1, held := work.held + 1))) else None
    case DrainEnds =>
      if work.persist.Draining? && work.held >= c.persistRows
      then Some(s.(work := work.(persist := Storing, sawEmpty := false)))
      else if work.persist.Draining? && work.ingress == 0
        then Some(s.(work := work.(persist := Storing, sawEmpty := true)))
        else None
    case Store(stored) =>
      if work.persist.Storing?
      then Some(s.(work := work.(persist := Checking, held := if stored then 0 else work.held))) else None
    case StoreRaises => if work.persist.Storing? && work.held > 0 then Some(s.Does(Raised)) else None
    case Check(expired) =>
      if !work.persist.Checking? then None
      else if !s.bus.stopAsync then Some(s.Does(Clearing))
      else if work.held == 0 && work.ingress == 0 then Some(s.Does(Returned))
      else if s.calls.deadline && expired then Some(s.Does(Raised))
      else Some(s.Does(Sleeping))
    case Clear => if work.persist.Clearing? then Some(s.Does(Parked).(bus := s.bus.(wake := false))) else None
    case Wake(timeout) =>
      if work.persist.Parked? && s.bus.loop.Live? && (s.bus.wake || s.bus.stopAsync || timeout)
      then Some(s.Does(Draining)) else None
    case SleepOver => if work.persist.Sleeping? && s.bus.loop.Live? then Some(s.Does(Draining)) else None
  }

  function Next(c: Settings, s: State, l: Label): Option<State> {
    match l
    case Thread(m) => NextMain(s, m)
    case Caller(a) => NextCaller(c, s, a)
    case Coroutine(p) => NextLoop(c, s, p)
  }

  function Exec(c: Settings, s: State, labels: seq<Label>): Option<State>
    decreases labels
  {
    if labels == [] then Some(s)
    else
      match Next(c, s, labels[0])
      case None => None
      case Some(t) => Exec(c, t, labels[1..])
  }

  // ----------------------------------------------------------------- invariants

  /** The queue held nothing when it was last drained, and nothing was taken from it since. */
  predicate Drained(s: State) {
    var p := s.work.persist;
    s.work.sawEmpty && s.bus.loop.Live? && (p.Storing? || p.Checking? || p.Clearing? || p.Parked?)
  }

  predicate Signalled(s: State) {
    s.calls.signalling > 0 || SetWake in s.bus.callbacks || (s.work.persist.Parked? && s.bus.wake)
  }

  predicate StopSignalled(s: State) {
    s.bus.stopAsync || SetStop in s.bus.callbacks || s.calls.flagged > 0
  }

  /** The event loop is not published yet, so nothing has reached it. */
  predicate Unopened(s: State) {
    s.bus.loop.Unpublished? && s.work.persist.Unstarted? && !s.bus.stopAsync && s.bus.callbacks == []
  }

  /** The stages follow each other: what a stage presupposes. */
  predicate Staged(s: State) {
    match s.out.main
    case NotStarted =>
      && Unopened(s) && !s.calls.accepting && s.work.ingress == 0 && s.work.held == 0
      && (s.out.shown.NEW? || s.out.shown.STOPPED?)
    case Opening => Unopened(s) && !s.calls.accepting && s.work.ingress == 0
    case Publishing => Unopened(s)
    case Flagging => s.bus.loop.Live? && s.work.persist.Unstarted?
    case Waiting => s.bus.loop.Live? && !s.work.persist.Unstarted?
    case Joining =>
      s.bus.loop.Live? && !s.work.persist.Unstarted? && s.bus.stopAsync && !s.calls.accepting
    case _ => !s.bus.loop.Live? && s.bus.callbacks == []
  }

  predicate Sized(c: Settings, s: State) {
    s.work.ingress <= c.capacity && s.work.held <= c.persistRows && (s.work.persist.Unstarted? ==> s.work.held == 0)
  }

  /** A stop request is on its way to the persist loop wherever it can still be needed. */
  predicate StopKept(s: State) {
    && (s.bus.stopAsync || SetStop in s.bus.callbacks || s.calls.flagged > 0 ==> s.calls.stopRequested)
    && (s.calls.stopRequested && (s.out.main.Waiting? || s.out.main.Joining?) ==> StopSignalled(s))
  }

  /** The service stays closed behind a stop request that found it open. */
  predicate Closed(s: State) {
    !s.out.early && (s.calls.stopRequested || s.calls.locked > 0) ==> !s.calls.accepting && Opened(s)
  }

  predicate Success(s: State) {
    (s.out.main.Ended? || s.out.main.Cleaning? || s.out.main.Exiting? || s.out.main.Gone?) && !s.out.main.failed
  }

  /** What the outcome of the worker says about the queues. */
  predicate Settled(s: State) {
    && (s.work.persist.Returned? ==>
          s.calls.stopRequested && s.work.held == 0 && (!s.out.early ==> s.work.ingress == 0))
    && (Success(s) ==> s.work.persist.Returned? && !s.calls.accepting)
    && (s.out.shown.STOPPED? ==>
          s.out.main.NotStarted? || ((s.out.main.Exiting? || s.out.main.Gone?) && !s.out.main.failed))
  }

  predicate Awake(s: State) {
    Drained(s) && s.work.ingress > 0 ==> Signalled(s)
  }

  predicate Inv(c: Settings, s: State) {
    Staged(s) && Sized(c, s) && StopKept(s) && Closed(s) && Settled(s) && Awake(s)
  }

  lemma MainInv(c: Settings, s: State, m: MainStep)
    requires Inv(c, s) && NextMain(s, m).Some?
    ensures Inv(c, NextMain(s, m).value)
  {
    match m
    case LoopEnds(failed) => EndInv(c, s, failed);
    case _ =>
  }

  lemma EndInv(c: Settings, s: State, failed: bool)
    requires Inv(c, s) && EndLoop(s, failed).Some?
    ensures Inv(c, EndLoop(s, failed).value)
  {
  }

  lemma QueueInv(c: Settings, s: State, b: Callback)
    requires Inv(c, s) && (b.SetStop? ==> s.calls.stopRequested)
    ensures Inv(c, Queue(s, b)) && (s.bus.loop.Live? ==> b in Queue(s, b).bus.callbacks)
  {
    assert forall x :: x in s.bus.callbacks + [b] <==> x in s.bus.callbacks || x == b;
  }

  lemma CallerInv(c: Settings, s: State, a: CallerStep)
    requires Inv(c, s) && NextCaller(c, s, a).Some?
    ensures Inv(c, NextCaller(c, s, a).value)
  {
    match a
    case Signal => QueueInv(c, s, SetWake);
    case StopSignal => QueueInv(c, s, SetStop);
    case StopLock(timed) => LockInv(c, s, timed);
    case _ =>
  }

  lemma LockInv(c: Settings, s: State, timed: bool)
    requires Inv(c, s)
    ensures Inv(c, Lock(s, timed))
  {
  }

  lemma LoopInv(c: Settings, s: State, p: LoopStep)
    requires Inv(c, s) && NextLoop(c, s, p).Some?
    ensures Inv(c, NextLoop(c, s, p).value)
  {
    match p
    case RunCallback => CallBackInv(c, s);
    case _ =>
  }

  lemma CallBackInv(c: Settings, s: State)
    requires Inv(c, s) && NextLoop(c, s, RunCallback).Some?
    ensures Inv(c, NextLoop(c, s, RunCallback).value)
  {
    assert s.bus.callbacks == [s.bus.callbacks[0]] + s.bus.callbacks[1..];
  }

  lemma StepInv(c: Settings, s: State, l: Label)
    requires Inv(c, s) && Next(c, s, l).Some?
    ensures Inv(c, Next(c, s, l).value)
  {
    match l
    case Thread(m) => MainInv(c, s, m);
    case Caller(a) => CallerInv(c, s, a);
    case Coroutine(p) => LoopInv(c, s, p);
  }

  lemma {:induction false} ExecInv(c: Settings, s: State, labels: seq<Label>)
    requires Inv(c, s) && Exec(c, s, labels).Some?
    ensures Inv(c, Exec(c, s, labels).value)
    decreases labels
  {
    if labels != [] {
      StepInv(c, s, labels[0]);
      ExecInv(c, Next(c, s, labels[0]).value, labels[1..]);
    }
  }

  ghost predicate Reachable(c: Settings, s: State) {
    exists labels :: Exec(c, Initial, labels) == Some(s)
  }

  lemma ReachableInv(c: Settings, s: State)
    requires Reachable(c, s)
    ensures Inv(c, s)
  {
    var labels :| Exec(c, Initial, labels) == Some(s);
    ExecInv(c, Initial, labels);
  }

  // --------------------------------------------------------------- lost wakeups

  /** Nothing wakes the parked persist loop but its poll timeout. */
  predicate Asleep(s: State) {
    s.work.persist.Parked? && s.bus.loop.Live? && !Signalled(s)
  }

  /** No lost wakeup: a loop parked behind a drain that ended on an empty queue has nothing to do, or
      a wake set, queued, or about to be queued. So events wait for the poll timeout only behind a
      drain that stopped with `held` full. */
  lemma NoLostWakeup(c: Settings, s: State)
    requires Reachable(c, s) && s.work.persist.Parked? && s.bus.loop.Live?
    ensures s.work.sawEmpty && s.work.ingress > 0 ==> Signalled(s)
    ensures Asleep(s) && s.work.ingress > 0 ==> !s.work.sawEmpty
  {
    ReachableInv(c, s);
  }

  // ---------------------------------------------------- how much is too much

  /** Every state on the way has at most `most` events queued or held. */
  predicate FewRun(c: Settings, s: State, labels: seq<Label>, most: nat)
    decreases labels
  {
    && s.work.ingress + s.work.held <= most
    && (labels == [] ||
        match Next(c, s, labels[0])
        case None => true
        case Some(t) => FewRun(c, t, labels[1..], most))
  }

  ghost predicate ReachableWithin(c: Settings, s: State, most: nat) {
    exists labels :: Exec(c, Initial, labels) == Some(s) && FewRun(c, Initial, labels, most)
  }

  /** The persist loop is past its last look at the queue. */
  predicate Behind(s: State) {
    var p := s.work.persist;
    s.bus.loop.Live? && (p.Storing? || p.Checking? || p.Clearing? || p.Parked?)
  }

  /** A drain that can take everything leaves nothing behind. */
  predicate AwakeFew(s: State) {
    Behind(s) && s.work.ingress > 0 ==> Signalled(s)
  }

  lemma MainFew(c: Settings, s: State, m: MainStep)
    requires Inv(c, s) && AwakeFew(s) && NextMain(s, m).Some?
    ensures AwakeFew(NextMain(s, m).value)
  {
  }

  lemma CallerFew(c: Settings, s: State, a: CallerStep)
    requires AwakeFew(s) && NextCaller(c, s, a).Some?
    ensures AwakeFew(NextCaller(c, s, a).value)
  {
    match a
    case Signal => assert s.bus.loop.Live? ==> SetWake in Queue(s, SetWake).bus.callbacks;
    case StopSignal =>
      assert forall x :: x in s.bus.callbacks ==> x in Queue(s, SetStop).bus.callbacks;
    case _ =>
  }

  lemma LoopFew(c: Settings, s: State, p: LoopStep)
    requires AwakeFew(s) && s.work.ingress + s.work.held <= c.persistRows && NextLoop(c, s, p).Some?
    ensures AwakeFew(NextLoop(c, s, p).value)
  {
    if p.RunCallback? {
      assert s.bus.callbacks == [s.bus.callbacks[0]] + s.bus.callbacks[1..];
    }
  }

  lemma {:induction false} ExecFew(c: Settings, s: State, labels: seq<Label>)
    requires Inv(c, s) && AwakeFew(s) && FewRun(c, s, labels, c.persistRows) && Exec(c, s, labels).Some?
    ensures AwakeFew(Exec(c, s, labels).value)
    decreases labels
  {
    if labels != [] {
      match labels[0] {
        case Thread(m) => MainFew(c, s, m);
        case Caller(a) => CallerFew(c, s, a);
        case Coroutine(p) => LoopFew(c, s, p);
      }
      StepInv(c, s, labels[0]);
      ExecFew(c, Next(c, s, labels[0]).value, labels[1..]);
    }
  }

  /** While queue and held events together never exceed a persist batch, nothing waits for the poll
      timeout. */
  lemma FewNeverSleep(c: Settings, s: State)
    requires ReachableWithin(c, s, c.persistRows) && Asleep(s)
    ensures s.work.ingress == 0
  {
    var labels :| Exec(c, Initial, labels) == Some(s) && FewRun(c, Initial, labels, c.persistRows);
    ExecFew(c, Initial, labels);
  }

  lemma {:induction false} ExecConcat(c: Settings, s: State, a: seq<Label>, b: seq<Label>)
    requires Exec(c, s, a).Some?
    ensures Exec(c, s, a + b) == Exec(c, Exec(c, s, a).value, b)
    decreases a
  {
    if a == [] {
      assert a + b == b;
    } else {
      HeadTail(a, b);
      ExecConcat(c, Next(c, s, a[0]).value, a[1..], b);
    }
  }

  lemma Reach(c: Settings, s: State, l: Label, t: State)
    requires Reachable(c, s) && Next(c, s, l) == Some(t)
    ensures Reachable(c, t)
  {
    var labels :| Exec(c, Initial, labels) == Some(s);
    assert Exec(c, t, []) == Some(t);
    assert Exec(c, s, [l]) == Some(t);
    ExecConcat(c, Initial, labels, [l]);
  }

  lemma WithinReachable(c: Settings, s: State, most: nat)
    requires ReachableWithin(c, s, most)
    ensures Reachable(c, s)
  {
  }

  lemma {:induction false} FewConcat(c: Settings, s: State, a: seq<Label>, b: seq<Label>, most: nat)
    requires FewRun(c, s, a, most) && Exec(c, s, a).Some? && FewRun(c, Exec(c, s, a).value, b, most)
    ensures FewRun(c, s, a + b, most)
    decreases a
  {
    if a == [] {
      assert a + b == b;
    } else {
      HeadTail(a, b);
      FewConcat(c, Next(c, s, a[0]).value, a[1..], b, most);
    }
  }

  lemma ReachFew(c: Settings, s: State, l: Label, t: State, most: nat)
    requires ReachableWithin(c, s, most) && Next(c, s, l) == Some(t) && t.work.ingress + t.work.held <= most
    ensures ReachableWithin(c, t, most)
  {
    var labels :| Exec(c, Initial, labels) == Some(s) && FewRun(c, Initial, labels, most);
    FewEnds(c, Initial, labels, most);
    assert FewRun(c, t, [], most) && Exec(c, t, []) == Some(t);
    assert FewRun(c, s, [l], most) && Exec(c, s, [l]) == Some(t);
    ExecConcat(c, Initial, labels, [l]);
    FewConcat(c, Initial, labels, [l], most);
  }

  lemma {:induction false} FewEnds(c: Settings, s: State, labels: seq<Label>, most: nat)
    requires FewRun(c, s, labels, most) && Exec(c, s, labels).Some?
    ensures var t := Exec(c, s, labels).value; t.work.ingress + t.work.held <= most
    decreases labels
  {
    if labels != [] {
      FewEnds(c, Next(c, s, labels[0]).value, labels[1..], most);
    }
  }

  /** A service that has opened and accepted nothing yet, its loop not yet published. */
  const Fresh := Initial.At(Publishing).Showing(RUNNING).Open()

  lemma FreshReachable(c: Settings, most: nat)
    ensures ReachableWithin(c, Fresh, most)
  {
    var starting := Initial.At(Opening).Showing(STARTING);
    assert Exec(c, Initial, []) == Some(Initial) && FewRun(c, Initial, [], most);
    ReachFew(c, Initial, Caller(Start), starting, most);
    ReachFew(c, starting, Thread(Ready), Fresh, most);
  }

  /** Events accepted before the loop is published: their signals go nowhere. */
  lemma {:induction false} Unheard(c: Settings, s: State, n: nat, most: nat)
    requires ReachableWithin(c, s, most) && s.calls.accepting && s.bus.loop.Unpublished?
    requires s.work.ingress + n <= c.capacity && s.work.ingress + s.work.held + n <= most
    ensures ReachableWithin(c, s.Queued(n), most)
    decreases n
  {
    if n > 0 {
      ReachFew(c, s, Caller(Put), s.Submitted(1), most);
      ReachFew(c, s.Submitted(1), Caller(Signal), s.Queued(1), most);
      Unheard(c, s.Queued(1), n - 1, most);
    }
  }

  lemma {:induction false} Taken(c: Settings, s: State, n: nat, most: nat)
    requires ReachableWithin(c, s, most) && s.work.ingress + s.work.held <= most
    requires s.work.persist.Draining? && s.work.held + n <= c.persistRows && n <= s.work.ingress
    ensures ReachableWithin(c, s.(work := s.work.(ingress := s.work.ingress - n, held := s.work.held + n)), most)
    decreases n
  {
    if n > 0 {
      var t := s.(work := s.work.(ingress := s.work.ingress - 1, held := s.work.held + 1));
      ReachFew(c, s, Coroutine(DrainOne), t, most);
      Taken(c, t, n - 1, most);
    }
  }

  /** A burst larger than a persist batch can leave any number of its events waiting for the poll
      timeout, whatever the settings. */
  lemma BurstSleeps(c: Settings, left: nat)
    requires 0 < c.persistRows && 0 < left && c.persistRows + left <= c.capacity
    ensures exists s :: ReachableWithin(c, s, c.persistRows + left) && Asleep(s) && s.work.ingress == left
  {
    var n := c.persistRows + left;
    FreshReachable(c, n);
    Unheard(c, Fresh, n, n);
    var s := Fresh.Queued(n);
    ReachFew(c, s, Thread(Publish), s.At(Flagging).Heard(), n);
    s := s.At(Flagging).Heard();
    ReachFew(c, s, Thread(CheckFlag), s.At(Waiting).Does(Draining), n);
    BurstParks(c, s.At(Waiting).Does(Draining), left, n);
  }

  lemma BurstParks(c: Settings, s: State, left: nat, most: nat)
    requires ReachableWithin(c, s, most) && most == c.persistRows + left
    requires s.work.persist.Draining? && s.work.held == 0 && s.work.ingress == most
    requires s.bus.loop.Live? && !s.bus.stopAsync && s.bus.callbacks == [] && s.calls.signalling == 0
    ensures exists t :: ReachableWithin(c, t, most) && Asleep(t) && t.work.ingress == left
  {
    var drained := s.(work := s.work.(ingress := left, held := c.persistRows));
    Taken(c, s, c.persistRows, most);
    var full := drained.(work := drained.work.(persist := Storing, sawEmpty := false));
    ReachFew(c, drained, Coroutine(DrainEnds), full, most);
    var stored := full.(work := full.work.(held := 0, persist := Checking));
    ReachFew(c, full, Coroutine(Store(true)), stored, most);
    ReachFew(c, stored, Coroutine(Check(false)), stored.Does(Clearing), most);
    var parked := stored.Does(Parked).(bus := stored.bus.(wake := false));
    ReachFew(c, stored.Does(Clearing), Coroutine(Clear), parked, most);
    assert Asleep(parked);
  }

  /** So a bound on queued and held events keeps every event from waiting for the poll timeout exactly
      if it is at most a persist batch. */
  lemma SleepsExactly(c: Settings, most: nat)
    requires 0 < c.persistRows && most <= c.capacity
    ensures (forall s :: ReachableWithin(c, s, most) && Asleep(s) ==> s.work.ingress == 0) <==> most <= c.persistRows
  {
    if most <= c.persistRows {
      forall s | ReachableWithin(c, s, most) && Asleep(s) ensures s.work.ingress == 0 {
        FewerWithin(c, s, most, c.persistRows);
        FewNeverSleep(c, s);
      }
    } else {
      BurstSleeps(c, most - c.persistRows);
    }
  }

  lemma FewerWithin(c: Settings, s: State, few: nat, most: nat)
    requires ReachableWithin(c, s, few) && few <= most
    ensures ReachableWithin(c, s, most)
  {
    var labels :| Exec(c, Initial, labels) == Some(s) && FewRun(c, Initial, labels, few);
    FewerRun(c, Initial, labels, few, most);
  }

  lemma {:induction false} FewerRun(c: Settings, s: State, labels: seq<Label>, few: nat, most: nat)
    requires FewRun(c, s, labels, few) && few <= most
    ensures FewRun(c, s, labels, most)
    decreases labels
  {
    if labels != [] && Next(c, s, labels[0]).Some? {
      FewerRun(c, Next(c, s, labels[0]).value, labels[1..], few, most);
    }
  }

  // --------------------------------------------------------------- stop requests

  /** A stop request is never lost: once the worker has read the flag, its event is set, queued, or
      about to be queued by the stopper; so with nothing under way the event is set. */
  lemma StopNotLost(c: Settings, s: State)
    requires Reachable(c, s) && s.calls.stopRequested && (s.out.main.Waiting? || s.out.main.Joining?)
    ensures StopSignalled(s)
    ensures s.bus.callbacks == [] && s.calls.flagged == 0 ==> s.bus.stopAsync
  {
    ReachableInv(c, s);
  }

  /** A worker that ends STOPPED holds nothing, and its queue is empty if the stop request found the
      service open. */
  lemma StoppedIsEmpty(c: Settings, s: State)
    requires Reachable(c, s) && s.out.shown.STOPPED?
    ensures s.work.held == 0 && (!s.out.early ==> s.work.ingress == 0)
  {
    ReachableInv(c, s);
  }

  /** A stop request during `start` can be overtaken by the service opening: an event accepted behind
      the last drain is left in the queue of a worker that ends STOPPED. */
  lemma EarlyStopCanStrand(c: Settings, left: nat)
    requires left <= c.capacity
    ensures exists s :: Reachable(c, s) && s.out.shown.STOPPED? && s.out.early && s.work.ingress == left
  {
    assert Exec(c, Initial, []) == Some(Initial);
    var starting := Initial.At(Opening).Showing(STARTING);
    Reach(c, Initial, Caller(Start), starting);
    var locked := Lock(starting, true);
    Reach(c, starting, Caller(StopLock(true)), locked);
    var open := locked.At(Publishing).Showing(RUNNING).Open();
    Reach(c, locked, Thread(Ready), open);
    var flagged := open.(calls := open.calls.(locked := 0, flagged := 1, stopRequested := true));
    Reach(c, open, Caller(StopFlag), flagged);
    Reach(c, flagged, Thread(Publish), flagged.At(Flagging).Heard());
    var s := flagged.At(Waiting).Does(Draining).(bus := flagged.bus.(loop := Live, stopAsync := true));
    Reach(c, flagged.At(Flagging).Heard(), Thread(CheckFlag), s);
    LastDrainPassed(c, s, left);
  }

  lemma LastDrainPassed(c: Settings, s: State, left: nat)
    requires Reachable(c, s) && left <= c.capacity && s.out.early && s.calls.accepting
    requires s.out.main.Waiting? && s.bus.stopAsync
    requires s.work.persist.Draining? && s.work.held == 0 && s.work.ingress == 0
    ensures exists t :: Reachable(c, t) && t.out.shown.STOPPED? && t.out.early && t.work.ingress == left
  {
    var empty := s.(work := s.work.(persist := Storing, sawEmpty := c.persistRows > 0));
    Reach(c, s, Coroutine(DrainEnds), empty);
    Reach(c, empty, Coroutine(Store(true)), empty.Does(Checking));
    var returned := empty.Does(Returned);
    Reach(c, empty.Does(Checking), Coroutine(Check(false)), returned);
    Accepted(c, returned, left);
    StopsAnyway(c, returned.Submitted(left), left);
  }

  lemma {:induction false} Accepted(c: Settings, s: State, n: nat)
    requires Reachable(c, s) && s.calls.accepting && s.work.ingress + n <= c.capacity
    ensures Reachable(c, s.Submitted(n))
    decreases n
  {
    if n > 0 {
      Reach(c, s, Caller(Put), s.Submitted(1));
      Accepted(c, s.Submitted(1), n - 1);
    }
  }

  lemma StopsAnyway(c: Settings, s: State, left: nat)
    requires Reachable(c, s) && s.out.early && s.out.main.Waiting? && s.bus.stopAsync
    requires s.work.persist.Returned? && s.work.ingress == left
    ensures exists t :: Reachable(c, t) && t.out.shown.STOPPED? && t.out.early && t.work.ingress == left
  {
    var joining := s.At(Joining).Showing(STOPPING).Shut();
    Reach(c, s, Thread(SeeStop), joining);
    var ended := joining.At(Ended(false)).Loopless();
    Reach(c, joining, Thread(LoopEnds(false)), ended);
    Reach(c, ended, Thread(Record), ended.At(Cleaning(false)));
    Reach(c, ended.At(Cleaning(false)), Thread(Finish(false)), ended.At(Exiting(false)).Showing(STOPPED));
  }

  /** While stopping, the persist loop returns exactly with nothing left, and gives up exactly when
      the deadline passes with something left. */
  lemma DeadlineDecides(c: Settings, s: State, expired: bool)
    requires s.work.persist.Checking? && s.bus.stopAsync
    ensures var t := NextLoop(c, s, Check(expired)).value;
            && (t.work.persist.Returned? <==> s.work.held + s.work.ingress == 0)
            && (t.work.persist.Raised? <==> s.work.held + s.work.ingress > 0 && s.calls.deadline && expired)
  {
  }

  // ------------------------------------------------------------ what is shown last

  /** A late stop call leaves STOPPING; without one the recorded outcome is shown. */
  predicate Shows(s: State) {
    && (s.out.late ==>
          && s.out.shown.STOPPING?
          && (s.out.main.Exiting? || s.out.main.Gone? || (s.out.main.Cleaning? && s.out.main.failed)))
    && (s.out.main.Cleaning? && s.out.main.failed && !s.out.late ==> s.out.shown.FAILED?)
    && ((s.out.main.Exiting? || s.out.main.Gone?) && !s.out.late ==>
          s.out.shown == if s.out.main.failed then FAILED else STOPPED)
  }

  lemma MainShows(s: State, m: MainStep)
    requires Shows(s) && NextMain(s, m).Some?
    ensures Shows(NextMain(s, m).value)
  {
  }

  lemma CallerShows(c: Settings, s: State, a: CallerStep)
    requires Shows(s) && NextCaller(c, s, a).Some?
    ensures Shows(NextCaller(c, s, a).value)
  {
  }

  lemma LoopShows(c: Settings, s: State, p: LoopStep)
    requires Shows(s) && NextLoop(c, s, p).Some?
    ensures Shows(NextLoop(c, s, p).value)
  {
  }

  lemma {:induction false} ExecShows(c: Settings, s: State, labels: seq<Label>)
    requires Shows(s) && Exec(c, s, labels).Some?
    ensures Shows(Exec(c, s, labels).value)
    decreases labels
  {
    if labels != [] {
      match labels[0] {
        case Thread(m) => MainShows(s, m);
        case Caller(a) => CallerShows(c, s, a);
        case Coroutine(p) => LoopShows(c, s, p);
      }
      ExecShows(c, Next(c, s, labels[0]).value, labels[1..]);
    }
  }

  /** When the thread is gone the outcome is shown, FAILED or STOPPED, exactly if no stop call came
      between the record of the outcome and the end of the thread; otherwise STOPPING is. */
  lemma OutcomeShown(c: Settings, s: State)
    requires Reachable(c, s) && s.out.main.Gone?
    ensures s.out.shown.FAILED? <==> s.out.main.failed && !s.out.late
    ensures s.out.shown.STOPPED? <==> !s.out.main.failed && !s.out.late
    ensures s.out.shown.STOPPING? <==> s.out.late
  {
    var labels :| Exec(c, Initial, labels) == Some(s);
    ExecShows(c, Initial, labels);
  }

  /** Once its persist loop gave up, a worker has failed, and FAILED is what it shows in the end
      exactly if no stop call came late; otherwise STOPPING is. */
  lemma RaisedEndsFailed(c: Settings, s: State)
    requires Reachable(c, s) && s.work.persist.Raised? && s.out.main.Gone?
    ensures s.out.main.failed && (s.out.shown.FAILED? <==> !s.out.late) && (s.out.shown.STOPPING? <==> s.out.late)
  {
    ReachableInv(c, s);
    OutcomeShown(c, s);
  }

  /** A late stop call really hides a failure, whatever the settings. */
  lemma LateStopHidesFailure(c: Settings)
    requires 0 < c.capacity && 0 < c.persistRows
    ensures exists s :: Reachable(c, s) && s.work.persist.Raised? && s.out.main.Gone?
                        && s.out.late && s.out.shown.STOPPING?
  {
    FreshReachable(c, 1);
    Unheard(c, Fresh, 1, 1);
    var s := Fresh.Queued(1);
    ReachFew(c, s, Thread(Publish), s.At(Flagging).Heard(), 1);
    var draining := s.At(Waiting).Does(Draining).Heard();
    ReachFew(c, s.At(Flagging).Heard(), Thread(CheckFlag), draining, 1);
    Taken(c, draining, 1, 1);
    StoreFails(c, draining.(work := draining.work.(ingress := 0, held := 1)));
  }

  lemma StoreFails(c: Settings, held: State)
    requires ReachableWithin(c, held, 1) && 0 < c.persistRows
    requires held.work.persist.Draining? && held.work.ingress == 0 && held.work.held == 1 && held.out.main.Waiting?
    ensures exists s :: Reachable(c, s) && s.work.persist.Raised? && s.out.main.Gone?
                        && s.out.late && s.out.shown.STOPPING?
  {
    WithinReachable(c, held, 1);
    var storing := held.(work := held.work.(persist := Storing, sawEmpty := 1 < c.persistRows));
    Reach(c, held, Coroutine(DrainEnds), storing);
    Reach(c, storing, Coroutine(StoreRaises), storing.Does(Raised));
    HiddenBehind(c, storing.Does(Raised));
  }

  lemma HiddenBehind(c: Settings, s: State)
    requires Reachable(c, s) && s.work.persist.Raised? && s.out.main.Waiting?
    ensures exists t :: Reachable(c, t) && t.work.persist.Raised? && t.out.main.Gone?
                        && t.out.late && t.out.shown.STOPPING?
  {
    var ended := s.At(Ended(true)).Loopless();
    Reach(c, s, Thread(LoopEnds(true)), ended);
    var cleaning := ended.At(Cleaning(true)).Showing(FAILED).Shut();
    Reach(c, ended, Thread(Record), cleaning);
    var late := Lock(cleaning, true);
    Reach(c, cleaning, Caller(StopLock(true)), late);
    Reach(c, late, Thread(Finish(false)), late.At(Exiting(true)));
    Reach(c, late.At(Exiting(true)), Thread(Exit), late.At(Gone(true)));
  }

  /** Giving up is final. */
  lemma RaisedStays(c: Settings, s: State, l: Label)
    requires s.work.persist.Raised? && !s.out.main.Flagging? && Next(c, s, l).Some?
    ensures Next(c, s, l).value.work.persist.Raised?
  {
    match l
    case Thread(m) => MainStays(s, m);
    case Caller(a) => CallerStays(c, s, a);
    case Coroutine(p) => LoopStays(c, s, p);
  }

  lemma MainStays(s: State, m: MainStep)
    requires !s.out.main.Flagging? && NextMain(s, m).Some?
    ensures NextMain(s, m).value.work == s.work
  {
  }

  lemma CallerStays(c: Settings, s: State, a: CallerStep)
    requires NextCaller(c, s, a).Some?
    ensures NextCaller(c, s, a).value.work.persist == s.work.persist
  {
  }

  lemma LoopStays(c: Settings, s: State, p: LoopStep)
    requires s.work.persist.Raised? && NextLoop(c, s, p).Some?
    ensures NextLoop(c, s, p).value.work.persist.Raised?
  {
    assert p.RunCallback?;
  }

  // ------------------------------------------------------------- signals arrive

  predicate Waking(s: State) {
    s.work.persist.Parked? && s.bus.loop.Live? && Signalled(s)
  }

  /** What carries a signal to the persist loop; the poll timeout is not among it. */
  predicate Carries(l: Label) {
    l == Caller(Signal) || l == Coroutine(RunCallback) || l == Coroutine(Wake(false))
  }

  function Distance(s: State): nat {
    2 * s.calls.signalling + |s.bus.callbacks|
  }

  lemma CallerWaking(c: Settings, s: State, a: CallerStep)
    requires Waking(s) && NextCaller(c, s, a).Some?
    ensures Waking(NextCaller(c, s, a).value)
  {
    assert forall b :: SetWake in s.bus.callbacks ==> SetWake in s.bus.callbacks + [b];
    assert SetWake in s.bus.callbacks + [SetWake];
  }

  lemma LoopWaking(c: Settings, s: State, p: LoopStep)
    requires Waking(s) && NextLoop(c, s, p).Some?
    ensures var t := NextLoop(c, s, p).value; t.work.persist.Draining? || Waking(t)
  {
    if p.RunCallback? {
      assert s.bus.callbacks == [s.bus.callbacks[0]] + s.bus.callbacks[1..];
    }
  }

  lemma MainWaking(s: State, m: MainStep)
    requires Waking(s) && NextMain(s, m).Some?
    ensures var t := NextMain(s, m).value; t.work.persist.Draining? || Waking(t) || !t.bus.loop.Live?
  {
  }

  /** No step of any thread loses a signal: the loop stays about to wake until it drains or ends. */
  lemma WakingStays(c: Settings, s: State, l: Label)
    requires Waking(s) && Next(c, s, l).Some?
    ensures var t := Next(c, s, l).value;
            t.work.persist.Draining? || Waking(t) || !t.bus.loop.Live?
  {
    match l
    case Thread(m) => MainWaking(s, m);
    case Caller(a) => CallerWaking(c, s, a);
    case Coroutine(p) => LoopWaking(c, s, p);
  }

  lemma WakingNears(c: Settings, s: State, l: Label)
    requires Waking(s) && Carries(l) && Next(c, s, l).Some?
    ensures var t := Next(c, s, l).value;
            t.work.persist.Draining? || (Waking(t) && Distance(t) < Distance(s))
  {
    WakingStays(c, s, l);
  }

  /** A loop about to wake has a step to take. */
  lemma WakingMoves(c: Settings, s: State)
    requires Waking(s)
    ensures exists l :: Carries(l) && Next(c, s, l).Some?
  {
    var l := if s.work.persist.Parked? && s.bus.wake then Coroutine(Wake(false))
    else if s.bus.callbacks != [] then Coroutine(RunCallback) else Caller(Signal);
    assert Carries(l) && Next(c, s, l).Some?;
  }

  lemma DrainingStays(c: Settings, s: State, l: Label)
    requires s.work.persist.Draining? && Carries(l) && Next(c, s, l).Some?
    ensures Next(c, s, l).value.work.persist.Draining?
  {
  }

  /** Whatever the order of these steps, the loop drains again within the distance, without the timeout. */
  lemma {:induction false} SignalWakes(c: Settings, s: State, labels: seq<Label>)
    requires Waking(s) || s.work.persist.Draining?
    requires (forall l :: l in labels ==> Carries(l)) && Exec(c, s, labels).Some?
    ensures var t := Exec(c, s, labels).value;
            t.work.persist.Draining? || (Waking(s) && Waking(t) && |labels| + Distance(t) <= Distance(s))
    decreases labels
  {
    if labels != [] {
      assert labels == [labels[0]] + labels[1..];
      if Waking(s) {
        WakingNears(c, s, labels[0]);
      } else {
        DrainingStays(c, s, labels[0]);
      }
      SignalWakes(c, Next(c, s, labels[0]).value, labels[1..]);
    }
  }

  // ------------------------------------------------------------ stopping stores

  /** Stopping: the service is closed, the stop event is set, and the persist loop is still at work. */
  predicate Stopping(c: Settings, s: State) {
    && 0 < c.persistRows && s.bus.stopAsync && s.bus.loop.Live? && !s.calls.accepting
    && (s.out.main.Waiting? || s.out.main.Joining?)
    && !s.work.persist.Unstarted? && !s.work.persist.Returned? && !s.work.persist.Raised?
  }

  /** The persist loop has returned and left nothing behind, for good. */
  predicate Stored(s: State) {
    && s.work.persist.Returned? && s.work.ingress == 0 && s.work.held == 0
    && !s.calls.accepting && Opened(s) && !s.out.main.Publishing? && !s.out.main.Flagging?
  }

  /** Storage works, the deadline does not pass, and nothing else ends the worker. */
  predicate Orderly(l: Label) {
    match l
    case Coroutine(Store(stored)) => stored
    case Coroutine(StoreRaises) => false
    case Coroutine(Check(expired)) => !expired
    case Thread(LoopEnds(failed)) => !failed
    case _ => true
  }

  predicate PersistStep(l: Label) {
    l.Coroutine? && !l.p.RunCallback?
  }

  function PersistSteps(labels: seq<Label>): nat
    decreases labels
  {
    if labels == [] then 0 else (if PersistStep(labels[0]) then 1 else 0) + PersistSteps(labels[1..])
  }

  /** A bound on the steps the persist loop still takes. */
  function StepsLeft(c: Settings, s: State): nat {
    5 * s.work.ingress +
    match s.work.persist
    case Draining => if s.work.held < c.persistRows && s.work.ingress > 0 then 5 else 9
    case Storing => 8
    case Checking => if s.work.held > 0 then 12 else 7
    case Sleeping => if s.work.held > 0 || s.work.ingress == 0 then 11 else 6
    case Clearing => 14
    case Parked => 13
    case _ => 0
  }

  lemma LoopNears(c: Settings, s: State, p: LoopStep)
    requires Stopping(c, s) && Orderly(Coroutine(p)) && NextLoop(c, s, p).Some?
    ensures var t := NextLoop(c, s, p).value;
            && (Stopping(c, t) || Stored(t))
            && StepsLeft(c, t) + (if p.RunCallback? then 0 else 1) <= StepsLeft(c, s)
  {
  }

  lemma OthersWait(c: Settings, s: State, l: Label)
    requires Stopping(c, s) && Orderly(l) && !l.Coroutine? && Next(c, s, l).Some?
    ensures var t := Next(c, s, l).value; Stopping(c, t) && t.work == s.work
  {
  }

  lemma StoredStays(c: Settings, s: State, l: Label)
    requires Stored(s) && Orderly(l) && Next(c, s, l).Some?
    ensures Stored(Next(c, s, l).value)
  {
  }

  /** While stopping the persist loop always has a step to take. */
  lemma StoppingMoves(c: Settings, s: State)
    requires Stopping(c, s)
    ensures exists l :: PersistStep(l) && Orderly(l) && Next(c, s, l).Some?
  {
    var p := match s.work.persist
      case Draining => if s.work.held < c.persistRows && s.work.ingress > 0 then DrainOne else DrainEnds
      case Storing => Store(true)
      case Checking => Check(false)
      case Clearing => Clear
      case Parked => Wake(false)
      case _ => SleepOver;
    assert Orderly(Coroutine(p)) && PersistStep(Coroutine(p)) && Next(c, s, Coroutine(p)).Some?;
  }

  /** Stopping with working storage, in every interleaving with submitters, stoppers, callbacks and the
      main coroutine: the persist loop takes at most the bounded number of steps until it has stored
      every event accepted before and returned; and it stays returned. */
  lemma {:induction false} ShutdownStores(c: Settings, s: State, labels: seq<Label>)
    requires Stopping(c, s) && (forall l :: l in labels ==> Orderly(l)) && Exec(c, s, labels).Some?
    ensures var t := Exec(c, s, labels).value;
            Stored(t) || (Stopping(c, t) && PersistSteps(labels) + StepsLeft(c, t) <= StepsLeft(c, s))
    decreases labels
  {
    if labels != [] {
      var l := labels[0];
      assert labels == [l] + labels[1..];
      match l {
        case Coroutine(p) => LoopNears(c, s, p);
        case _ => OthersWait(c, s, l);
      }
      var t := Next(c, s, l).value;
      if Stored(t) {
        StoredRun(c, t, labels[1..]);
      } else {
        ShutdownStores(c, t, labels[1..]);
      }
    }
  }

  lemma {:induction false} StoredRun(c: Settings, s: State, labels: seq<Label>)
    requires Stored(s) && (forall l :: l in labels ==> Orderly(l)) && Exec(c, s, labels).Some?
    ensures Stored(Exec(c, s, labels).value)
    decreases labels
  {
    if labels != [] {
      assert labels == [labels[0]] + labels[1..];
      StoredStays(c, s, labels[0]);
      StoredRun(c, Next(c, s, labels[0]).value, labels[1..]);
    }
  }
}

/** What the delivery loop's log shows: every event is right given the passes and what was logged
    before it, and every pass leaves what its answer demands. */
module DeliveryLaws {
  import opened Basics
  import opened Backoff
  import opened Delivery

  // ---------------------------------------------------------------- the answers

  /** Enough rows, enough bytes, or nothing else on its way. */
  predicate Pressing(t: Timing, p: Pass) {
    || (p.rows > 0 && p.rows >= t.batchRows)
    || (p.rows > 0 && p.bytes >= t.batchBytes)
    || (p.rows > 0 && p.queuesEmpty)
  }

  /** The rows sent are delivered or dead-lettered. */
  predicate Done(ending: Ending) {
    ending == Success || ending == DeadLettered(true) || ending == DeadLettered(false)
  }

  /** The rows sent stay, and are sent again after a delay. */
  predicate ComesBack(ending: Ending) {
    match ending
    case RetryLater(_) => true
    case StorageTrouble(_) => true
    case _ => false
  }

  /** No delivery is tried again before a reload. */
  predicate Halts(ending: Ending) {
    ending == BlockedByAuth || ending == BlockedByAnswer
  }

  /** A delivery went through, or a permanent answer came: the schedule of delays starts over. */
  predicate StartsOver(ending: Ending) {
    || ending == Success || ending == Split || ending == BlockedByAnswer
    || ending == DeadLettered(true) || ending == RetryLater(true) || ending == StorageTrouble(true)
  }

  // ------------------------------------------------------------- the log before

  ghost predicate HasEnsured(log: seq<Event>) {
    exists i :: 0 <= i < |log| && log[i].Ensured?
  }

  /** No answer has blocked the loop, and the delay of every earlier retry has passed. */
  ghost predicate Free(log: seq<Event>, now: real) {
    && (forall i :: 0 <= i < |log| ==> !log[i].Halted?)
    && (forall i :: 0 <= i < |log| && log[i].Deferred? ==> log[i].until <= now)
  }

  /** Delays drawn since the last reset. */
  function Retries(log: seq<Event>): nat {
    if log == [] then 0
    else
      var before, e := Retries(log[..|log| - 1]), log[|log| - 1];
      if e.Ensured? || e.BackoffReset? then 0 else if e.Deferred? || e.SchemaDeferred? then before + 1 else before
  }

  /** The last conclusion was a split. */
  function SplitLast(log: seq<Event>): bool {
    if log == [] then false
    else if log[|log| - 1].Concluded? then log[|log| - 1].ending.Split?
    else SplitLast(log[..|log| - 1])
  }

  /** When rows were seen waiting: at a look that found some, or, a flush interval early, at a
      settlement that left some. */
  function SeenAt(t: Timing, e: Event): Option<real> {
    match e
    case Looked(_, at, rows) => if rows > 0 then Some(at) else None
    case Concluded(_, at, ending, left) => if Done(ending) && left > 0 then Some(at - t.flushInterval) else None
    case _ => None
  }

  /** The rows seen so far are gone. */
  predicate Empties(e: Event) {
    (e.Looked? && e.rows == 0) || (e.Concluded? && Done(e.ending))
  }

  /** Rows seen at `at` in event `j` are still waiting at the end of the log. */
  ghost predicate Standing(t: Timing, log: seq<Event>, j: int, at: real) {
    && 0 <= j < |log| && SeenAt(t, log[j]) == Some(at)
    && forall i :: j < i < |log| ==> !Empties(log[i])
  }

  ghost predicate OldRows(t: Timing, log: seq<Event>, now: real) {
    exists j, at :: Standing(t, log, j, at) && now - at >= t.flushInterval
  }

  /** A look at pass `k` that must start a delivery. */
  ghost predicate Must(t: Timing, passes: seq<Pass>, log: seq<Event>, k: nat)
    requires k < |passes|
  {
    && passes[k].rows > 0 && Free(log, passes[k].now)
    && (Pressing(t, passes[k]) || OldRows(t, log, passes[k].now))
  }

  // ---------------------------------------------------------------- one event

  ghost predicate JustLooked(log: seq<Event>, k: nat) {
    log != [] && log[|log| - 1].Looked? && log[|log| - 1].pass == k
  }

  /** The event is what its pass and the log before it demand. */
  ghost predicate Fine(s: Settings, t: Timing, gated: bool, passes: seq<Pass>, log: seq<Event>, e: Event) {
    && e.pass < |passes|
    && var p := passes[e.pass];
    match e
    case Ensured(_) => p.ensure.Ready?
    case SchemaDeferred(_, delay) => p.ensure.RetryableError? && FineDelay(s, p, log, delay)
    case Looked(_, at, rows) => at == p.now && rows == p.rows && (gated ==> HasEnsured(log))
    case Started(k, at, isolated) =>
      && at == p.now && JustLooked(log, k) && Must(t, passes, log, k)
      && (gated ==> HasEnsured(log)) && isolated == SplitLast(log)
    case Rested(k, delay) => JustLooked(log, k) && !Must(t, passes, log, k) && 0.0 <= delay <= t.flushInterval
    case BackoffReset(_) => StartsOver(p.ending)
    case Deferred(_, until) => ComesBack(p.ending) && FineDelay(s, p, log, until - p.later)
    case Concluded(_, at, ending, left) => at == p.later && ending == p.ending && left == p.rowsAfter
    case Halted(_) => Halts(p.ending)
  }

  /** The delay is drawn from the schedule's base for the retries since the last reset. */
  ghost predicate FineDelay(s: Settings, p: Pass, log: seq<Event>, delay: real) {
    && 0.0 <= p.unit <= 1.0 && delay == Delay(s, Base(s, Retries(log)), p.unit)
    && DrawnFrom(s, Base(s, Retries(log)), delay)
  }

  ghost predicate Disciplined(s: Settings, t: Timing, gated: bool, passes: seq<Pass>, log: seq<Event>) {
    forall i :: 0 <= i < |log| ==> Fine(s, t, gated, passes, log[..i], log[i])
  }

  // -------------------------------------------------------- what the past recalls

  /** The past is what the log shows; `clock` is a time that has passed. */
  ghost predicate Recalls(t: Timing, log: seq<Event>, clock: real) {
    var q := PastOf(t, log);
    && (q.ready <==> HasEnsured(log))
    && (q.blocked <==> exists i :: 0 <= i < |log| && log[i].Halted?)
    && RecallsRetry(log, q.retryAt, clock)
    && q.isolating == SplitLast(log) && q.retries == Retries(log)
    && RecallsRows(t, log, q.since, clock)
  }

  ghost predicate RecallsRetry(log: seq<Event>, retryAt: Option<real>, clock: real) {
    && (forall i :: 0 <= i < |log| && log[i].Deferred? ==>
                      log[i].until <= clock || (retryAt.Some? && log[i].until <= retryAt.value))
    && (retryAt.Some? ==> exists i :: 0 <= i < |log| && log[i].Deferred? && log[i].until == retryAt.value)
  }

  /** `since` is when the oldest rows still waiting were seen. */
  ghost predicate RecallsRows(t: Timing, log: seq<Event>, since: Option<real>, clock: real) {
    && (forall j, at :: Standing(t, log, j, at) ==> since.Some? && since.value <= at)
    && (since.Some? ==> since.value <= clock && exists j :: Standing(t, log, j, since.value))
  }

  lemma LogSnoc(s: Settings, t: Timing, gated: bool, passes: seq<Pass>, log: seq<Event>, e: Event)
    requires Disciplined(s, t, gated, passes, log) && Fine(s, t, gated, passes, log, e)
    ensures Disciplined(s, t, gated, passes, log + [e])
  {
    var more := log + [e];
    forall i | 0 <= i < |more| ensures Fine(s, t, gated, passes, more[..i], more[i]) {
      assert more[..i] == if i < |log| then log[..i] else log;
    }
  }

  lemma StandingSnoc(t: Timing, log: seq<Event>, e: Event, j: int, at: real)
    ensures Standing(t, log + [e], j, at) <==>
            (j == |log| && SeenAt(t, e) == Some(at)) || (Standing(t, log, j, at) && !Empties(e))
  {
    var more := log + [e];
    assert more[|log|] == e;
    assert forall i :: 0 <= i < |log| ==> more[i] == log[i];
  }

  lemma RowsSnoc(t: Timing, log: seq<Event>, q: Past, clock: real, e: Event, now: real)
    requires RecallsRows(t, log, q.since, clock) && clock <= now && 0.0 < t.flushInterval
    requires (e.Looked? || e.Concluded?) ==> e.at == now
    ensures RecallsRows(t, log + [e], Next(t, q, e).since, now)
  {
    var since := Next(t, q, e).since;
    forall j, at | Standing(t, log + [e], j, at) ensures since.Some? && since.value <= at {
      StandingSnoc(t, log, e, j, at);
    }
    if since.Some? {
      StandingSnoc(t, log, e, |log|, since.value);
      if q.since.Some? {
        var j :| Standing(t, log, j, q.since.value);
        StandingSnoc(t, log, e, j, q.since.value);
      }
    }
  }

  lemma RetrySnoc(t: Timing, log: seq<Event>, q: Past, clock: real, e: Event, now: real)
    requires RecallsRetry(log, q.retryAt, clock) && clock <= now
    requires e.Started? ==> q.retryAt.None? || q.retryAt.value <= now
    requires e.Deferred? ==> q.retryAt.None?
    ensures RecallsRetry(log + [e], Next(t, q, e).retryAt, now)
  {
    var more := log + [e];
    assert more[|log|] == e;
    if q.retryAt.Some? {
      var i :| 0 <= i < |log| && log[i].Deferred? && log[i].until == q.retryAt.value;
      assert more[i] == log[i];
    }
  }

  /** One more event; `now` is the time behind it. */
  lemma RecallsSnoc(t: Timing, log: seq<Event>, clock: real, e: Event, now: real)
    requires Recalls(t, log, clock) && clock <= now && 0.0 < t.flushInterval
    requires (e.Looked? || e.Concluded?) ==> e.at == now
    requires e.Started? ==> PastOf(t, log).retryAt.None? || PastOf(t, log).retryAt.value <= now
    requires e.Deferred? ==> PastOf(t, log).retryAt.None?
    ensures Recalls(t, log + [e], now) && PastOf(t, log + [e]) == Next(t, PastOf(t, log), e)
  {
    var q, more := PastOf(t, log), log + [e];
    PastSnoc(t, log, e);
    RowsSnoc(t, log, q, clock, e, now);
    RetrySnoc(t, log, q, clock, e, now);
    assert more[..|log|] == log && more[|log|] == e;
    FoundSnoc(log, e);
  }

  lemma FoundSnoc(log: seq<Event>, e: Event)
    ensures HasEnsured(log + [e]) <==> HasEnsured(log) || e.Ensured?
    ensures (exists i :: 0 <= i < |log + [e]| && (log + [e])[i].Halted?) <==>
            (exists i :: 0 <= i < |log| && log[i].Halted?) || e.Halted?
  {
    var more := log + [e];
    assert more[|log|] == e;
    if i :| 0 <= i < |log| && log[i].Ensured? {
      assert more[i].Ensured?;
    }
    if i :| 0 <= i < |log| && log[i].Halted? {
      assert more[i].Halted?;
    }
  }

  /** The variables decide exactly as the log demands. */
  lemma DueIsMust(t: Timing, passes: seq<Pass>, log: seq<Event>, clock: real, k: nat)
    requires Recalls(t, log, clock) && k < |passes| && clock <= passes[k].now
    ensures Due(t, passes[k], PastOf(t, log)) <==> Must(t, passes, log, k)
  {
    var q, now := PastOf(t, log), passes[k].now;
    FreeIs(log, q, clock, now);
    if Aged(t, q.since, now) {
      var j :| Standing(t, log, j, q.since.value);
      assert OldRows(t, log, now);
    }
    if OldRows(t, log, now) {
      var j, at :| Standing(t, log, j, at) && now - at >= t.flushInterval;
      assert q.since.Some? && q.since.value <= at;
    }
  }

  lemma FreeIs(log: seq<Event>, q: Past, clock: real, now: real)
    requires (q.blocked <==> exists i :: 0 <= i < |log| && log[i].Halted?)
    requires RecallsRetry(log, q.retryAt, clock) && clock <= now
    ensures Free(log, now) <==> !q.blocked && (q.retryAt.None? || q.retryAt.value <= now)
  {
    if q.retryAt.Some? {
      var i :| 0 <= i < |log| && log[i].Deferred? && log[i].until == q.retryAt.value;
      assert Free(log, now) ==> log[i].until <= now;
    }
  }

  // ------------------------------------------------------------------- one pass

  ghost predicate Good(s: Settings, t: Timing, gated: bool, passes: seq<Pass>, log: seq<Event>, clock: real) {
    Disciplined(s, t, gated, passes, log) && Recalls(t, log, clock)
  }

  lemma Grow(s: Settings, t: Timing, gated: bool, passes: seq<Pass>, log: seq<Event>, clock: real, e: Event, now: real)
    requires Good(s, t, gated, passes, log, clock) && Fine(s, t, gated, passes, log, e)
    requires clock <= now && 0.0 < t.flushInterval
    requires (e.Looked? || e.Concluded?) ==> e.at == now
    requires e.Started? ==> PastOf(t, log).retryAt.None? || PastOf(t, log).retryAt.value <= now
    requires e.Deferred? ==> PastOf(t, log).retryAt.None?
    ensures Good(s, t, gated, passes, log + [e], now) && PastOf(t, log + [e]) == Next(t, PastOf(t, log), e)
  {
    LogSnoc(s, t, gated, passes, log, e);
    RecallsSnoc(t, log, clock, e, now);
  }

  /** The settings of one loop and the pass under way. */
  ghost predicate Setting(s: Settings, t: Timing, passes: seq<Pass>, k: nat) {
    s.Valid() && 0.0 < t.flushInterval && Monotone(passes) && k < |passes|
  }

  lemma DrawFine(s: Settings, p: Pass, log: seq<Event>, retries: nat)
    requires s.Valid() && Drawable(p) && retries == Retries(log)
    ensures FineDelay(s, p, log, Draw(s, p, retries))
  {
    BaseGrows(s, retries, retries);
    DelayDrawn(s, Base(s, retries), p.unit);
  }

  lemma GateGood(s: Settings, t: Timing, gated: bool, passes: seq<Pass>, log: seq<Event>, clock: real, k: nat)
    requires Setting(s, t, passes, k) && Good(s, t, gated, passes, log, clock) && clock <= passes[k].now
    ensures var q, events := PastOf(t, log), Gate(s, k, passes[k], PastOf(t, log)).0;
            && Good(s, t, gated, passes, log + events, passes[k].now)
            && (passes[k].ensure.Ready? ==> PastOf(t, log + events) == Next(t, q, Ensured(k)))
  {
    var p, q := passes[k], PastOf(t, log);
    var events := Gate(s, k, p, q).0;
    if events == [] {
      Later(t, log, clock, p.now);
      assert log + [] == log;
    } else {
      if p.ensure.RetryableError? {
        DrawFine(s, p, log, q.retries);
      }
      Grow(s, t, gated, passes, log, clock, events[0], p.now);
    }
  }

  lemma Later(t: Timing, log: seq<Event>, clock: real, now: real)
    requires Recalls(t, log, clock) && clock <= now
    ensures Recalls(t, log, now)
  {
  }

  // `more` is what the pass adds.

  lemma RepeatGood(s: Settings, t: Timing, gated: bool, passes: seq<Pass>, log: seq<Event>, clock: real, k: nat,
                   delay: real, more: seq<Event>)
    requires Setting(s, t, passes, k) && Good(s, t, gated, passes, log, clock) && clock <= passes[k].later
    requires PastOf(t, log).retryAt.None? && passes[k].ending.Repeats() && FineDelay(s, passes[k], log, delay)
    requires more == [Deferred(k, passes[k].later + delay)]
    ensures Good(s, t, gated, passes, log + more, passes[k].later)
  {
    assert more[0].until - passes[k].later == delay;
    Grow(s, t, gated, passes, log, clock, more[0], passes[k].later);
    assert more == [more[0]];
  }

  lemma ConcludeGood(s: Settings, t: Timing, gated: bool, passes: seq<Pass>, log: seq<Event>, clock: real, k: nat,
                     more: seq<Event>)
    requires Setting(s, t, passes, k) && Good(s, t, gated, passes, log, clock) && clock <= passes[k].later
    requires more == [Conclusion(k, passes[k])]
    ensures Good(s, t, gated, passes, log + more, passes[k].later)
  {
    Grow(s, t, gated, passes, log, clock, more[0], passes[k].later);
    assert more == [more[0]];
  }

  lemma HaltGood(s: Settings, t: Timing, gated: bool, passes: seq<Pass>, log: seq<Event>, clock: real, k: nat,
                 more: seq<Event>)
    requires Setting(s, t, passes, k) && Good(s, t, gated, passes, log, clock) && clock <= passes[k].later
    requires passes[k].ending.Blocks() && more == [Conclusion(k, passes[k]), Halted(k)]
    ensures Good(s, t, gated, passes, log + more, passes[k].later)
  {
    ConcludeGood(s, t, gated, passes, log, clock, k, [more[0]]);
    Grow(s, t, gated, passes, log + [more[0]], passes[k].later, more[1], passes[k].later);
    assert log + more == log + [more[0]] + [more[1]];
  }

  lemma RepeatedGood(s: Settings, t: Timing, gated: bool, passes: seq<Pass>, log: seq<Event>, clock: real, k: nat,
                     delay: real, more: seq<Event>)
    requires Setting(s, t, passes, k) && Good(s, t, gated, passes, log, clock) && clock <= passes[k].later
    requires PastOf(t, log).retryAt.None? && passes[k].ending.Repeats() && FineDelay(s, passes[k], log, delay)
    requires more == [Deferred(k, passes[k].later + delay), Conclusion(k, passes[k])]
    ensures Good(s, t, gated, passes, log + more, passes[k].later)
  {
    RepeatGood(s, t, gated, passes, log, clock, k, delay, [more[0]]);
    ConcludeGood(s, t, gated, passes, log + [more[0]], passes[k].later, k, [more[1]]);
    assert log + more == log + [more[0]] + [more[1]];
  }

  lemma NothingGood(s: Settings, t: Timing, gated: bool, passes: seq<Pass>, log: seq<Event>, clock: real, now: real,
                    more: seq<Event>)
    requires Good(s, t, gated, passes, log, clock) && clock <= now && more == []
    ensures Good(s, t, gated, passes, log + more, now)
  {
    Later(t, log, clock, now);
    assert log + more == log;
  }

  lemma AftermathGood(s: Settings, t: Timing, gated: bool, passes: seq<Pass>, log: seq<Event>, clock: real, k: nat,
                      delay: real, more: seq<Event>)
    requires Setting(s, t, passes, k) && Good(s, t, gated, passes, log, clock) && clock <= passes[k].later
    requires PastOf(t, log).retryAt.None? && (Drawable(passes[k]) ==> FineDelay(s, passes[k], log, delay))
    requires more == Aftermath(k, passes[k], delay).0
    ensures Good(s, t, gated, passes, log + more, passes[k].later)
  {
    var ending := passes[k].ending;
    if ending.Blocks() {
      HaltGood(s, t, gated, passes, log, clock, k, more);
    } else if !ending.Repeats() {
      ConcludeGood(s, t, gated, passes, log, clock, k, more);
    } else if !Drawable(passes[k]) {
      NothingGood(s, t, gated, passes, log, clock, passes[k].later, more);
    } else if ending.StorageTrouble? {
      RepeatGood(s, t, gated, passes, log, clock, k, delay, more);
    } else {
      RepeatedGood(s, t, gated, passes, log, clock, k, delay, more);
    }
  }

  lemma OutcomeGood(s: Settings, t: Timing, gated: bool, passes: seq<Pass>, log: seq<Event>, clock: real, k: nat)
    requires Setting(s, t, passes, k) && Good(s, t, gated, passes, log, clock) && clock <= passes[k].now
    requires PastOf(t, log).retryAt.None?
    ensures Good(s, t, gated, passes, log + Outcome(s, k, passes[k], PastOf(t, log)).0, passes[k].later)
  {
    var p := passes[k];
    if p.ending.Died? {
      Later(t, log, clock, p.later);
      assert log + [] == log;
    } else if p.ending.Resets() {
      var reset := log + [BackoffReset(k)];
      Grow(s, t, gated, passes, log, clock, BackoffReset(k), p.now);
      if Drawable(p) {
        DrawFine(s, p, reset, 0);
      }
      AftermathGood(s, t, gated, passes, reset, p.now, k, Draw(s, p, 0), Aftermath(k, p, Draw(s, p, 0)).0);
      SeqAssoc(log, [BackoffReset(k)], Aftermath(k, p, Draw(s, p, 0)).0);
    } else {
      var retries := PastOf(t, log).retries;
      if Drawable(p) {
        DrawFine(s, p, log, retries);
      }
      AftermathGood(s, t, gated, passes, log, clock, k, Draw(s, p, retries), Aftermath(k, p, Draw(s, p, retries)).0);
    }
  }

  lemma ActGood(s: Settings, t: Timing, gated: bool, passes: seq<Pass>, log: seq<Event>, k: nat)
    requires Setting(s, t, passes, k) && Good(s, t, gated, passes, log, passes[k].now)
    requires JustLooked(log, k) && (gated ==> HasEnsured(log))
    ensures Good(s, t, gated, passes, log + Act(s, t, k, passes[k], PastOf(t, log)).0, passes[k].later)
  {
    var p, q := passes[k], PastOf(t, log);
    DueIsMust(t, passes, log, p.now, k);
    if Due(t, p, q) {
      var e := Started(k, p.now, q.isolating);
      Grow(s, t, gated, passes, log, p.now, e, p.now);
      OutcomeGood(s, t, gated, passes, log + [e], p.now, k);
      SeqAssoc(log, [e], Outcome(s, k, p, q.(retryAt := None)).0);
    } else {
      Grow(s, t, gated, passes, log, p.now, Rested(k, RestDelay(t, p, q)), p.later);
    }
  }

  lemma LookGood(s: Settings, t: Timing, gated: bool, passes: seq<Pass>, log: seq<Event>, clock: real, k: nat)
    requires Setting(s, t, passes, k) && Good(s, t, gated, passes, log, clock) && clock <= passes[k].now
    requires gated ==> PastOf(t, log).ready
    ensures Good(s, t, gated, passes, log + Look(s, t, k, passes[k], PastOf(t, log)).0, passes[k].later)
  {
    var p, q := passes[k], PastOf(t, log);
    var e := Looked(k, p.now, p.rows);
    Grow(s, t, gated, passes, log, clock, e, p.now);
    assert (log + [e])[|log|] == e;
    ActGood(s, t, gated, passes, log + [e], k);
    SeqAssoc(log, [e], Act(s, t, k, p, Next(t, q, e)).0);
  }

  lemma PassGood(s: Settings, t: Timing, gated: bool, passes: seq<Pass>, log: seq<Event>, clock: real, k: nat)
    requires Setting(s, t, passes, k) && Good(s, t, gated, passes, log, clock) && clock <= passes[k].now
    ensures Good(s, t, gated, passes, log + PassEvents(s, t, gated, k, passes[k], PastOf(t, log)).0, passes[k].later)
  {
    var p, q := passes[k], PastOf(t, log);
    if p.stop {
      Later(t, log, clock, p.later);
      assert log + [] == log;
    } else if gated && !q.ready {
      GateGood(s, t, gated, passes, log, clock, k);
      var events := Gate(s, k, p, q).0;
      if p.ensure.Ready? {
        LookGood(s, t, gated, passes, log + events, p.now, k);
        SeqAssoc(log, events, Look(s, t, k, p, Next(t, q, Ensured(k))).0);
      } else {
        Later(t, log + events, p.now, p.later);
      }
    } else {
      LookGood(s, t, gated, passes, log, clock, k);
    }
  }

  /** A time that has passed before pass `n`. */
  function ClockAt(passes: seq<Pass>, n: nat): real
    requires n <= |passes|
  {
    if n > 0 then passes[n - 1].later else if passes == [] then 0.0 else passes[0].now
  }

  lemma LogStep(s: Settings, t: Timing, gated: bool, passes: seq<Pass>, n: nat)
    requires n < |passes|
    ensures var (log, status) := Log(s, t, gated, passes, n);
            Log(s, t, gated, passes, n + 1).0 ==
            if status.Running? then log + PassEvents(s, t, gated, n, passes[n], PastOf(t, log)).0 else log
  {
  }

  lemma StepGood(s: Settings, t: Timing, gated: bool, passes: seq<Pass>, n: nat)
    requires Setting(s, t, passes, n) && Good(s, t, gated, passes, Log(s, t, gated, passes, n).0, ClockAt(passes, n))
    ensures Good(s, t, gated, passes, Log(s, t, gated, passes, n + 1).0, ClockAt(passes, n + 1))
  {
    var log := Log(s, t, gated, passes, n).0;
    LogStep(s, t, gated, passes, n);
    if Log(s, t, gated, passes, n).1.Running? {
      PassGood(s, t, gated, passes, log, ClockAt(passes, n), n);
    } else {
      Later(t, log, ClockAt(passes, n), ClockAt(passes, n + 1));
    }
  }

  lemma StartsGood(s: Settings, t: Timing, gated: bool, passes: seq<Pass>, clock: real)
    ensures Good(s, t, gated, passes, [], clock)
  {
  }

  lemma {:induction false} LogGood(s: Settings, t: Timing, gated: bool, passes: seq<Pass>, n: nat)
    requires s.Valid() && 0.0 < t.flushInterval && Monotone(passes) && n <= |passes|
    ensures Good(s, t, gated, passes, Log(s, t, gated, passes, n).0, ClockAt(passes, n))
  {
    if n == 0 {
      StartsGood(s, t, gated, passes, ClockAt(passes, 0));
    } else {
      LogGood(s, t, gated, passes, n - 1);
      StepGood(s, t, gated, passes, n - 1);
    }
  }

  // -------------------------------------------------------------- the theorems

  /** Over every run of the loop: each delivery stands behind a successful schema check and starts
      exactly when a look finds rows that are wanted or have waited a flush interval, no answer has
      blocked the loop, and the delay of every earlier retry has passed; it isolates a row exactly
      behind a split; each delay is drawn from the schedule; the loop looks again within a flush
      interval; and every event is what its pass says. */
  lemma LoopIsDisciplined(s: Settings, t: Timing, gated: bool, passes: seq<Pass>)
    requires s.Valid() && 0.0 < t.flushInterval && Monotone(passes)
    ensures Disciplined(s, t, gated, passes, Log(s, t, gated, passes, |passes|).0)
  {
    LogGood(s, t, gated, passes, |passes|);
  }

  /** No delivery starts before the delay of an earlier retry has passed, or after a blocking answer. */
  lemma RetriesWait(s: Settings, t: Timing, gated: bool, passes: seq<Pass>, i: nat, j: nat)
    requires s.Valid() && 0.0 < t.flushInterval && Monotone(passes)
    requires var log := Log(s, t, gated, passes, |passes|).0; i < j < |log| && log[j].Started?
    ensures var log := Log(s, t, gated, passes, |passes|).0;
            !log[i].Halted? && (log[i].Deferred? ==> log[i].until <= log[j].at)
  {
    LoopIsDisciplined(s, t, gated, passes);
    var log := Log(s, t, gated, passes, |passes|).0;
    assert log[..j][i] == log[i];
    assert Fine(s, t, gated, passes, log[..j], log[j]);
  }

  /** Every delivery of a gated loop stands behind a check that found the owned table. */
  lemma SchemaFirst(s: Settings, t: Timing, passes: seq<Pass>, j: nat)
    requires s.Valid() && 0.0 < t.flushInterval && Monotone(passes)
    requires var log := Log(s, t, true, passes, |passes|).0; j < |log| && log[j].Started?
    ensures var log := Log(s, t, true, passes, |passes|).0;
            exists i :: 0 <= i < j && log[i].Ensured? && log[i].pass < |passes| && passes[log[i].pass].ensure.Ready?
  {
    LoopIsDisciplined(s, t, true, passes);
    var log := Log(s, t, true, passes, |passes|).0;
    assert Fine(s, t, true, passes, log[..j], log[j]);
    var i :| 0 <= i < |log[..j]| && log[..j][i].Ensured?;
    assert Fine(s, t, true, passes, log[..i], log[i]);
  }

  // --------------------------------------------------- what every pass leaves

  /** The answer to a delivery leaves its mark: a repeated one a deferral, a blocking one a halt, one
      that resets the backoff a reset, and what the loop is told a conclusion. */
  ghost predicate Answered(k: nat, p: Pass, events: seq<Event>) {
    && (ComesBack(p.ending) ==>
          exists i :: 0 <= i < |events| && events[i].Deferred? && events[i].pass == k && events[i].until >= p.later)
    && (Halts(p.ending) ==> Halted(k) in events)
    && (!p.ending.StorageTrouble? ==> Concluded(k, p.later, p.ending, p.rowsAfter) in events)
    && (StartsOver(p.ending) ==> BackoffReset(k) in events)
  }

  lemma AftermathAnswers(k: nat, p: Pass, delay: real, more: seq<Event>)
    requires (more, Running) == Aftermath(k, p, delay) && 0.0 <= delay
    ensures p.ending.Repeats() ==>
              exists i :: 0 <= i < |more| && more[i].Deferred? && more[i].pass == k && more[i].until >= p.later
    ensures p.ending.Blocks() ==> Halted(k) in more
    ensures !p.ending.StorageTrouble? ==> Conclusion(k, p) in more
  {
    if p.ending.Repeats() {
      assert more[0] == Deferred(k, p.later + delay);
    }
  }

  lemma OutcomeAnswers(s: Settings, k: nat, p: Pass, q: Past, events: seq<Event>)
    requires s.Valid() && (events, Running) == Outcome(s, k, p, q)
    ensures Answered(k, p, events)
  {
    var retries := if p.ending.Resets() then 0 else q.retries;
    var delay, more := Draw(s, p, retries), Aftermath(k, p, Draw(s, p, retries)).0;
    DelayNotNegative(s, Base(s, retries), p.unit);
    AftermathAnswers(k, p, delay, more);
    if p.ending.Resets() {
      assert events == [BackoffReset(k)] + more;
      if p.ending.Repeats() {
        var i :| 0 <= i < |more| && more[i].Deferred? && more[i].pass == k && more[i].until >= p.later;
        assert events[1 + i] == more[i];
      }
    }
  }

  lemma DelayNotNegative(s: Settings, base: real, unit: real)
    ensures 0.0 <= Delay(s, base, unit)
  {
  }

  /** What a look adds: it starts a delivery exactly when it must, and the answer leaves its mark. */
  ghost predicate LookLeaves(t: Timing, passes: seq<Pass>, k: nat, before: seq<Event>, events: seq<Event>)
    requires k < |passes|
  {
    && |events| >= 2 && events[0] == Looked(k, passes[k].now, passes[k].rows)
    && (events[1].Started? <==> Must(t, passes, before + [events[0]], k))
    && (events[1].Started? ==> Answered(k, passes[k], events[2..]))
  }

  lemma LookLeft(
    s: Settings, t: Timing, gated: bool, passes: seq<Pass>, log: seq<Event>, clock: real, k: nat, events: seq<Event>)
    requires Setting(s, t, passes, k) && Good(s, t, gated, passes, log, clock) && clock <= passes[k].now
    requires (gated ==> PastOf(t, log).ready) && (events, Running) == Look(s, t, k, passes[k], PastOf(t, log))
    ensures LookLeaves(t, passes, k, log, events)
  {
    var p, q := passes[k], PastOf(t, log);
    var look := Looked(k, p.now, p.rows);
    var r := Next(t, q, look);
    Grow(s, t, gated, passes, log, clock, look, p.now);
    DueIsMust(t, passes, log + [look], p.now, k);
    var acts := Act(s, t, k, p, r).0;
    assert events == [look] + acts;
    if Due(t, p, r) {
      var more := Outcome(s, k, p, r.(retryAt := None)).0;
      assert acts == [Started(k, p.now, r.isolating)] + more;
      assert events[2..] == more;
      OutcomeAnswers(s, k, p, r.(retryAt := None), more);
    }
  }

  /** What pass `k` adds to the log behind `before`: without the owned table only a wait for another
      check; otherwise a look, and what it leads to. */
  ghost predicate Leaves(t: Timing, gated: bool, passes: seq<Pass>, k: nat, before: seq<Event>, events: seq<Event>)
    requires k < |passes|
  {
    var p := passes[k];
    if !gated || HasEnsured(before) then LookLeaves(t, passes, k, before, events)
    else if p.ensure.Ready? then
      && events != [] && events[0] == Ensured(k)
      && LookLeaves(t, passes, k, before + [events[0]], events[1..])
    else
      && |events| == (if p.ensure.RetryableError? then 1 else 0)
      && (forall e :: e in events ==> e.SchemaDeferred? && e.pass == k)
  }

  lemma PassLeft(
    s: Settings, t: Timing, gated: bool, passes: seq<Pass>, log: seq<Event>, clock: real, k: nat, events: seq<Event>)
    requires Setting(s, t, passes, k) && Good(s, t, gated, passes, log, clock) && clock <= passes[k].now
    requires (events, Running) == PassEvents(s, t, gated, k, passes[k], PastOf(t, log))
    ensures Leaves(t, gated, passes, k, log, events)
  {
    var p, q := passes[k], PastOf(t, log);
    if !gated || q.ready {
      LookLeft(s, t, gated, passes, log, clock, k, events);
    } else if p.ensure.Ready? {
      var more := Look(s, t, k, p, Next(t, q, Ensured(k))).0;
      assert events == [Ensured(k)] + more;
      Grow(s, t, gated, passes, log, clock, Ensured(k), p.now);
      LookLeft(s, t, gated, passes, log + [Ensured(k)], p.now, k, more);
    }
  }

  /** The schema check or the random source behind it raises. */
  predicate CheckRaises(p: Pass) {
    p.ensure.SchemaError? || p.ensure.ValueError? || (p.ensure.RetryableError? && !(0.0 <= p.unit <= 1.0))
  }

  /** The delivery or the random source behind it raises. */
  predicate DeliveryRaises(p: Pass) {
    p.ending.Died? || (ComesBack(p.ending) && !(0.0 <= p.unit <= 1.0))
  }

  /** Pass `k` reaches something that raises: its schema check, or a delivery it must start. */
  ghost predicate Raises(t: Timing, gated: bool, passes: seq<Pass>, k: nat, before: seq<Event>)
    requires k < |passes|
  {
    var p := passes[k];
    var look := Looked(k, p.now, p.rows);
    && !p.stop
    && if !gated || HasEnsured(before) then Must(t, passes, before + [look], k) && DeliveryRaises(p)
       else CheckRaises(p) || (p.ensure.Ready? && Must(t, passes, before + [Ensured(k)] + [look], k)
                               && DeliveryRaises(p))
  }

  lemma OutcomeRaises(s: Settings, k: nat, p: Pass, q: Past)
    ensures Outcome(s, k, p, q).1.Dead? <==> DeliveryRaises(p)
  {
  }

  lemma LookRaises(s: Settings, t: Timing, gated: bool, passes: seq<Pass>, log: seq<Event>, clock: real, k: nat)
    requires Setting(s, t, passes, k) && Good(s, t, gated, passes, log, clock) && clock <= passes[k].now
    requires gated ==> PastOf(t, log).ready
    ensures Look(s, t, k, passes[k], PastOf(t, log)).1.Dead?
       <==> Must(t, passes, log + [Looked(k, passes[k].now, passes[k].rows)], k) && DeliveryRaises(passes[k])
  {
    var p, q := passes[k], PastOf(t, log);
    var look := Looked(k, p.now, p.rows);
    Grow(s, t, gated, passes, log, clock, look, p.now);
    DueIsMust(t, passes, log + [look], p.now, k);
    OutcomeRaises(s, k, p, Next(t, q, look).(retryAt := None));
  }

  lemma PassRaises(s: Settings, t: Timing, gated: bool, passes: seq<Pass>, log: seq<Event>, clock: real, k: nat)
    requires Setting(s, t, passes, k) && Good(s, t, gated, passes, log, clock) && clock <= passes[k].now
    ensures PassEvents(s, t, gated, k, passes[k], PastOf(t, log)).1.Dead? <==> Raises(t, gated, passes, k, log)
    ensures PassEvents(s, t, gated, k, passes[k], PastOf(t, log)).1.Stopped? <==> passes[k].stop
  {
    var p, q := passes[k], PastOf(t, log);
    if !gated || q.ready {
      LookRaises(s, t, gated, passes, log, clock, k);
    } else if p.ensure.Ready? {
      Grow(s, t, gated, passes, log, clock, Ensured(k), p.now);
      LookRaises(s, t, gated, passes, log + [Ensured(k)], p.now, k);
    }
  }

  /** No pass that the loop goes through is left out; the loop ends on the stop flag, or exactly where
      a schema check or a delivery that the pass reaches raises. */
  lemma EveryPassCounts(s: Settings, t: Timing, gated: bool, passes: seq<Pass>, k: nat)
    requires Setting(s, t, passes, k) && Log(s, t, gated, passes, k).1.Running?
    ensures var (before, _) := Log(s, t, gated, passes, k);
            var (log, status) := Log(s, t, gated, passes, k + 1);
            && before <= log
            && (status.Running? ==> Leaves(t, gated, passes, k, before, log[|before|..]))
            && (status.Stopped? <==> passes[k].stop) && (status.Dead? <==> Raises(t, gated, passes, k, before))
  {
    var (before, _) := Log(s, t, gated, passes, k);
    var (events, status) := PassEvents(s, t, gated, k, passes[k], PastOf(t, before));
    LogGood(s, t, gated, passes, k);
    assert Log(s, t, gated, passes, k + 1) == (before + events, status);
    assert (before + events)[|before|..] == events;
    if status.Running? {
      PassLeft(s, t, gated, passes, before, ClockAt(passes, k), k, events);
    }
    PassRaises(s, t, gated, passes, before, ClockAt(passes, k), k);
  }
}

/** The delivery loop's control. What a pass does is stated once from the log of everything before it;
    the loop with its variables does exactly that, and the log keeps the discipline below. */
module Delivery {
  import opened Basics
  import opened Backoff
  import S = Schema

  datatype Timing = Timing(batchRows: int, batchBytes: int, flushInterval: real)

  /** How one `_deliver_once` ends, with what it did to the backoff. `rejected` means that a
      permanent answer reset the backoff first. */
  datatype Ending =
    | Success
    | DeadLettered(rejected: bool)
    | Split
    | RetryLater(rejected: bool)
    | BlockedByAuth
    | BlockedByAnswer
    | StorageTrouble(rejected: bool)
    | Died
  {
    /** The permanent answers and the successes start the schedule over. */
    predicate Resets() {
      match this
      case Success => true
      case Split => true
      case BlockedByAnswer => true
      case DeadLettered(rejected) => rejected
      case RetryLater(rejected) => rejected
      case StorageTrouble(rejected) => rejected
      case _ => false
    }

    predicate Repeats() { RetryLater? || StorageTrouble? }

    predicate Blocks() { BlockedByAuth? || BlockedByAnswer? }

    /** Rows left pending, delivered or dead-lettered. */
    predicate Settles() { Success? || DeadLettered? }
  }

  /** What one pass of the loop meets: the stop flag, the schema check, clock and spool at its start,
      then the delivery, the random draw, and clock and spool behind it. */
  datatype Pass = Pass(
    stop: bool, ensure: S.Outcome, now: real, rows: nat, bytes: nat, queuesEmpty: bool,
    ending: Ending, unit: real, rowsAfter: nat, later: real)

  /** What happened, and in which pass. */
  datatype Event =
    | Ensured(pass: nat)
    | SchemaDeferred(pass: nat, delay: real)
    | Looked(pass: nat, at: real, rows: nat)
    | Started(pass: nat, at: real, isolated: bool)
    | BackoffReset(pass: nat)
    | Deferred(pass: nat, until: real)
    | Concluded(pass: nat, at: real, ending: Ending, left: nat)
    | Halted(pass: nat)
    | Rested(pass: nat, delay: real)

  /** A loop goes on, has seen the stop flag, or was ended by an exception. */
  datatype Status = Running | Stopped | Dead

  // ------------------------------------------------------ what the log remembers

  datatype Past = Past(
    ready: bool, blocked: bool, retryAt: Option<real>, since: Option<real>, isolating: bool, retries: nat)

  const Nothing := Past(false, false, None, None, false, 0)

  function Next(t: Timing, q: Past, e: Event): Past {
    match e
    case Ensured(_) => q.(ready := true, retries := 0)
    case SchemaDeferred(_, _) => q.(retries := q.retries + 1)
    case Looked(_, at, rows) =>
      q.(since := if rows == 0 then None else if q.since.None? then Some(at) else q.since)
    case Started(_, _, _) => q.(retryAt := None)
    case BackoffReset(_) => q.(retries := 0)
    case Deferred(_, until) => q.(retryAt := Some(until), retries := q.retries + 1)
    case Concluded(_, at, ending, left) =>
      q.(isolating := ending.Split?,
      since := if !ending.Settles() then q.since else if left > 0 then Some(at - t.flushInterval) else None)
    case Halted(_) => q.(blocked := true)
    case Rested(_, _) => q
  }

  function PastOf(t: Timing, log: seq<Event>): Past {
    if log == [] then Nothing else Next(t, PastOf(t, log[..|log| - 1]), log[|log| - 1])
  }

  lemma PastSnoc(t: Timing, log: seq<Event>, e: Event)
    ensures PastOf(t, log + [e]) == Next(t, PastOf(t, log), e)
  {
    assert (log + [e])[..|log|] == log;
  }

  lemma {:induction false} PastConcat(t: Timing, log: seq<Event>, more: seq<Event>)
    ensures PastOf(t, log + more) == Onward(t, PastOf(t, log), more)
    decreases |more|
  {
    if more == [] {
      assert log + more == log;
    } else {
      PastSnoc(t, log, more[0]);
      PastConcat(t, log + [more[0]], more[1..]);
      assert log + more == (log + [more[0]]) + more[1..];
    }
  }

  function Onward(t: Timing, q: Past, more: seq<Event>): Past
    decreases |more|
  {
    if more == [] then q else Onward(t, Next(t, q, more[0]), more[1..])
  }

  // ------------------------------------------------------------ what a pass does

  /** Enough rows, enough bytes, or nothing else on its way. */
  predicate Wanted(t: Timing, p: Pass) {
    p.rows > 0 && (p.rows >= t.batchRows || p.bytes >= t.batchBytes || p.queuesEmpty)
  }

  /** The rows have been waiting for a flush interval. */
  predicate Aged(t: Timing, since: Option<real>, now: real) {
    since.Some? && now - since.value >= t.flushInterval
  }

  predicate Due(t: Timing, p: Pass, q: Past) {
    && p.rows > 0 && !q.blocked && (q.retryAt.None? || q.retryAt.value <= p.now)
    && (Wanted(t, p) || Aged(t, q.since, p.now))
  }

  predicate Drawable(p: Pass) {
    0.0 <= p.unit <= 1.0
  }

  /** The delay the backoff draws after `retries` others. */
  function Draw(s: Settings, p: Pass, retries: nat): real {
    Delay(s, Base(s, retries), p.unit)
  }

  /** The schema check in front of the first delivery. */
  function Gate(s: Settings, k: nat, p: Pass, q: Past): (seq<Event>, Status) {
    match p.ensure
    case Ready => ([Ensured(k)], Running)
    case RetryableError => if Drawable(p) then ([SchemaDeferred(k, Draw(s, p, q.retries))], Running) else ([], Dead)
    case MismatchError => ([], Running)
    case PermanentError => ([], Running)
    case SchemaError => ([], Dead)
    case ValueError => ([], Dead)
  }

  /** What follows the start of a delivery. */
  function Outcome(s: Settings, k: nat, p: Pass, q: Past): (seq<Event>, Status) {
    if p.ending.Died? then ([], Dead)
    else if p.ending.Resets() then
      var (more, status) := Aftermath(k, p, Draw(s, p, 0));
      ([BackoffReset(k)] + more, status)
    else Aftermath(k, p, Draw(s, p, q.retries))
  }

  function Conclusion(k: nat, p: Pass): Event {
    Concluded(k, p.later, p.ending, p.rowsAfter)
  }

  /** What follows an answer, with the delay the backoff would draw. */
  function Aftermath(k: nat, p: Pass, delay: real): (seq<Event>, Status) {
    var conclusion := Conclusion(k, p);
    if p.ending.Repeats() then
      if !Drawable(p) then ([], Dead)
      else
        var deferral := Deferred(k, p.later + delay);
        (if p.ending.StorageTrouble? then [deferral] else [deferral, conclusion], Running)
    else if p.ending.Blocks() then ([conclusion, Halted(k)], Running)
    else ([conclusion], Running)
  }

  /** The look at the spool and what it leads to; `q` is the past behind the look. */
  function Act(s: Settings, t: Timing, k: nat, p: Pass, q: Past): (seq<Event>, Status) {
    if Due(t, p, q) then
      var (more, status) := Outcome(s, k, p, q.(retryAt := None));
      ([Started(k, p.now, q.isolating)] + more, status)
    else ([Rested(k, RestDelay(t, p, q))], Running)
  }

  /** The wait of a pass that started nothing: until the next flush or retry is due. */
  function RestDelay(t: Timing, p: Pass, q: Past): real {
    var until := p.now + t.flushInterval;
    var flush := if q.since.Some? && q.since.value + t.flushInterval > p.now
                 then MinReal(until, q.since.value + t.flushInterval) else until;
    var retry := if q.retryAt.Some? && q.retryAt.value > p.now then MinReal(flush, q.retryAt.value) else flush;
    MaxReal(0.0, retry - p.later)
  }

  function Look(s: Settings, t: Timing, k: nat, p: Pass, q: Past): (seq<Event>, Status) {
    var look := Looked(k, p.now, p.rows);
    var (more, status) := Act(s, t, k, p, Next(t, q, look));
    ([look] + more, status)
  }

  /** One pass of the loop behind the past `q`. */
  function PassEvents(s: Settings, t: Timing, gated: bool, k: nat, p: Pass, q: Past): (seq<Event>, Status) {
    if p.stop then ([], Stopped)
    else if gated && !q.ready then
      var (events, status) := Gate(s, k, p, q);
      if !p.ensure.Ready? then (events, status)
      else
        var (more, after) := Look(s, t, k, p, Next(t, q, Ensured(k)));
        (events + more, after)
    else Look(s, t, k, p, q)
  }

  /** The log of the first `n` passes, and whether the loop is still running. */
  function Log(s: Settings, t: Timing, gated: bool, passes: seq<Pass>, n: nat): (seq<Event>, Status)
    requires n <= |passes|
  {
    if n == 0 then ([], Running)
    else
      var (log, status) := Log(s, t, gated, passes, n - 1);
      if !status.Running? then (log, status)
      else
        var (more, after) := PassEvents(s, t, gated, n - 1, passes[n - 1], PastOf(t, log));
        (log + more, after)
  }

  lemma {:induction false} OnwardConcat(t: Timing, q: Past, a: seq<Event>, b: seq<Event>)
    ensures Onward(t, q, a + b) == Onward(t, Onward(t, q, a), b)
    decreases |a|
  {
    if a == [] {
      assert a + b == b;
    } else {
      HeadTail(a, b);
      OnwardConcat(t, Next(t, q, a[0]), a[1..], b);
    }
  }

  lemma OnwardOne(t: Timing, q: Past, e: Event)
    ensures Onward(t, q, [e]) == Next(t, q, e)
  {
    assert [e][1..] == [];
  }

  // ------------------------------------------------------------ the loop as it runs

  /** The loop's local variables, the backoff apart. */
  datatype Memory = Memory(
    pendingSince: Option<real>, retryAt: Option<real>, blocked: bool, isolateNext: bool, schemaReady: bool)

  /** The variables hold what the log remembers. */
  predicate Mirrors(gated: bool, m: Memory, calls: nat, q: Past) {
    && m.pendingSince == q.since && m.retryAt == q.retryAt && m.blocked == q.blocked
    && m.isolateNext == q.isolating && m.schemaReady == (!gated || q.ready) && calls == q.retries
  }

  /** `_ensure_schema`, as far as the loop sees it. */
  method EnsureSchema(backoff: Backoff, t: Timing, k: nat, p: Pass, ghost q: Past)
    returns (ready: bool, events: seq<Event>, status: Status)
    requires backoff.Valid() && backoff.calls == q.retries
    modifies backoff
    ensures backoff.Valid() && (events, status) == Gate(backoff.settings, k, p, q)
    ensures ready <==> p.ensure.Ready?
    ensures status.Dead? <==>
            p.ensure.SchemaError? || p.ensure.ValueError? || (p.ensure.RetryableError? && !Drawable(p))
    ensures p.ensure.RetryableError? && Drawable(p) ==>
              events == [SchemaDeferred(k, Draw(backoff.settings, p, q.retries))]
    ensures status.Running? ==> backoff.calls == Onward(t, q, events).retries
    ensures status.Running? ==> Onward(t, q, events) == q.(ready := q.ready || ready, retries := backoff.calls)
  {
    ready, events, status := false, [], Running;
    match p.ensure {
      case Ready =>
        backoff.Reset();
        ready, events := true, [Ensured(k)];
        OnwardOne(t, q, Ensured(k));
      case RetryableError =>
        var delay := backoff.NextDelay(p.unit);
        if delay.None? {
          status := Dead;
        } else {
          events := [SchemaDeferred(k, delay.value)];
          OnwardOne(t, q, SchemaDeferred(k, delay.value));
        }
      case MismatchError =>
      case PermanentError =>
      case SchemaError => status := Dead;
      case ValueError => status := Dead;
    }
  }

  /** A moment the loop waits for: a flush interval from now, the end of the interval the rows have been
      waiting, or the end of a retry delay, if those are still to come. */
  predicate Awaited(t: Timing, p: Pass, q: Past, at: real) {
    || at == p.now + t.flushInterval
    || (q.since.Some? && at == q.since.value + t.flushInterval && at > p.now)
    || (q.retryAt.Some? && at == q.retryAt.value && at > p.now)
  }

  /** The wait ends exactly at the first of these moments, or at once if it has passed. */
  lemma RestEndsExactly(t: Timing, p: Pass, q: Past)
    ensures exists at :: Awaited(t, p, q, at) && (forall other :: Awaited(t, p, q, other) ==> at <= other)
                         && RestDelay(t, p, q) == MaxReal(0.0, at - p.later)
  {
    var at := p.now + t.flushInterval;
    if q.since.Some? && q.since.value + t.flushInterval > p.now {
      at := MinReal(at, q.since.value + t.flushInterval);
    }
    if q.retryAt.Some? && q.retryAt.value > p.now {
      at := MinReal(at, q.retryAt.value);
    }
    assert Awaited(t, p, q, at);
  }

  /** The wait at the end of a pass that started nothing: never past the next flush or retry moment. */
  method Rest(t: Timing, p: Pass, m: Memory, ghost q: Past) returns (delay: real)
    requires 0.0 < t.flushInterval && p.now <= p.later && m.retryAt == q.retryAt && m.pendingSince == q.since
    ensures delay == RestDelay(t, p, q) && 0.0 <= delay <= t.flushInterval
    ensures m.retryAt.Some? && p.now < m.retryAt.value ==> p.later + delay <= MaxReal(p.later, m.retryAt.value)
    ensures m.pendingSince.Some? && p.now < m.pendingSince.value + t.flushInterval ==>
              p.later + delay <= MaxReal(p.later, m.pendingSince.value + t.flushInterval)
  {
    var until := p.now + t.flushInterval;
    if m.pendingSince.Some? {
      var flushAt := m.pendingSince.value + t.flushInterval;
      if flushAt > p.now {
        until := MinReal(until, flushAt);
      }
    }
    if m.retryAt.Some? && m.retryAt.value > p.now {
      until := MinReal(until, m.retryAt.value);
    }
    delay := MaxReal(0.0, until - p.later);
  }

  lemma OnwardTwo(t: Timing, q: Past, e: Event, f: Event)
    ensures Onward(t, q, [e, f]) == Next(t, Next(t, q, e), f)
  {
    assert [e, f][1..] == [f];
    OnwardOne(t, Next(t, q, e), f);
  }

  /** What the loop does with an answer, the backoff already reset if the answer resets it. */
  method Settle(backoff: Backoff, t: Timing, gated: bool, k: nat, p: Pass, m: Memory, ghost q: Past)
    returns (after: Memory, events: seq<Event>, status: Status)
    requires backoff.Valid() && Mirrors(gated, m, backoff.calls, q) && q.retryAt.None?
    modifies backoff
    ensures backoff.Valid() && (events, status) == Aftermath(k, p, Draw(backoff.settings, p, q.retries))
    ensures status.Running? ==> Mirrors(gated, after, backoff.calls, Onward(t, q, events))
    ensures status.Running? && p.ending.Repeats() ==> after.retryAt.Some? && after.retryAt.value >= p.later
    ensures status.Running? && p.ending.Blocks() ==> after.blocked
  {
    var e := Concluded(k, p.later, p.ending, p.rowsAfter);
    after, status := m, Running;
    if p.ending.Repeats() {
      var delay := backoff.NextDelay(p.unit);
      if delay.None? {
        return after, [], Dead;
      }
      var d := Deferred(k, p.later + delay.value);
      after := after.(retryAt := Some(p.later + delay.value));
      OnwardOne(t, q, d);
      if p.ending.StorageTrouble? {
        return after, [d], Running;
      }
      OnwardTwo(t, q, d, e);
      return after.(isolateNext := false), [d, e], Running;
    }
    after := after.(isolateNext := p.ending.Split?);
    OnwardOne(t, q, e);
    if p.ending.Blocks() {
      OnwardTwo(t, q, e, Halted(k));
      return after.(blocked := true), [e, Halted(k)], Running;
    }
    if p.ending.Settles() {
      after := after.(pendingSince := if p.rowsAfter > 0 then Some(p.later - t.flushInterval) else None);
    }
    return after, [e], Running;
  }

  /** One delivery and what the loop does with its ending. */
  method Deliver(backoff: Backoff, t: Timing, gated: bool, k: nat, p: Pass, m: Memory, ghost q: Past)
    returns (after: Memory, events: seq<Event>, status: Status)
    requires backoff.Valid() && Mirrors(gated, m, backoff.calls, q) && q.retryAt.None?
    modifies backoff
    ensures backoff.Valid() && (events, status) == Outcome(backoff.settings, k, p, q)
    ensures status.Running? ==> Mirrors(gated, after, backoff.calls, Onward(t, q, events))
    ensures status.Running? && p.ending.Repeats() ==> after.retryAt.Some? && after.retryAt.value >= p.later
    ensures status.Running? && p.ending.Blocks() ==> after.blocked
  {
    if p.ending.Died? {
      return m, [], Dead;
    }
    if p.ending.Resets() {
      backoff.Reset();
      after, events, status := Settle(backoff, t, gated, k, p, m, Next(t, q, BackoffReset(k)));
      OnwardConcat(t, q, [BackoffReset(k)], events);
      OnwardOne(t, q, BackoffReset(k));
      events := [BackoffReset(k)] + events;
    } else {
      after, events, status := Settle(backoff, t, gated, k, p, m, q);
    }
  }

  /** Start a delivery exactly when one is due, and rest otherwise. */
  method StartOrRest(backoff: Backoff, t: Timing, gated: bool, k: nat, p: Pass, m: Memory, ghost q: Past)
    returns (after: Memory, events: seq<Event>, status: Status)
    requires backoff.Valid() && Mirrors(gated, m, backoff.calls, q) && 0.0 < t.flushInterval && p.now <= p.later
    modifies backoff
    ensures backoff.Valid() && (events, status) == Act(backoff.settings, t, k, p, q)
    ensures status.Running? ==> Mirrors(gated, after, backoff.calls, Onward(t, q, events))
    ensures events != [] && (events[0] == Started(k, p.now, q.isolating) <==> Due(t, p, q))
  {
    var retryReady := m.retryAt.None? || p.now >= m.retryAt.value;
    var flushDue := p.rows >= t.batchRows || p.bytes >= t.batchBytes
                    || (m.pendingSince.Some? && p.now - m.pendingSince.value >= t.flushInterval);
    if p.rows > 0 && !m.blocked && retryReady && (flushDue || p.queuesEmpty) {
      var start := Started(k, p.now, m.isolateNext);
      OnwardOne(t, q, start);
      after, events, status := Deliver(backoff, t, gated, k, p, m.(retryAt := None), Next(t, q, start));
      OnwardConcat(t, q, [start], events);
      events := [start] + events;
    } else {
      var delay := Rest(t, p, m, q);
      OnwardOne(t, q, Rested(k, delay));
      after, events, status := m, [Rested(k, delay)], Running;
    }
  }

  /** One look at the spool. */
  method LookAtSpool(backoff: Backoff, t: Timing, gated: bool, k: nat, p: Pass, m: Memory, ghost q: Past)
    returns (after: Memory, events: seq<Event>, status: Status)
    requires backoff.Valid() && Mirrors(gated, m, backoff.calls, q) && 0.0 < t.flushInterval && p.now <= p.later
    modifies backoff
    ensures backoff.Valid() && (events, status) == Look(backoff.settings, t, k, p, q)
    ensures status.Running? ==> Mirrors(gated, after, backoff.calls, Onward(t, q, events))
  {
    var since := m.pendingSince;
    if p.rows > 0 && since.None? {
      since := Some(p.now);
    }
    if p.rows == 0 {
      since := None;
    }
    var look := Looked(k, p.now, p.rows);
    OnwardOne(t, q, look);
    after, events, status := StartOrRest(backoff, t, gated, k, p, m.(pendingSince := since), Next(t, q, look));
    OnwardConcat(t, q, [look], events);
    events := [look] + events;
  }

  /** One pass: the stop flag, the schema check until it has passed, then the spool. */
  method OnePass(backoff: Backoff, t: Timing, gated: bool, k: nat, p: Pass, m: Memory, ghost q: Past)
    returns (after: Memory, events: seq<Event>, status: Status)
    requires backoff.Valid() && Mirrors(gated, m, backoff.calls, q) && 0.0 < t.flushInterval && p.now <= p.later
    modifies backoff
    ensures backoff.Valid() && (events, status) == PassEvents(backoff.settings, t, gated, k, p, q)
    ensures status.Running? ==> Mirrors(gated, after, backoff.calls, Onward(t, q, events))
  {
    if p.stop {
      return m, [], Stopped;
    }
    if m.schemaReady {
      after, events, status := LookAtSpool(backoff, t, gated, k, p, m, q);
      return;
    }
    var ready: bool;
    ready, events, status := EnsureSchema(backoff, t, k, p, q);
    after := m.(schemaReady := ready);
    if ready {
      var more: seq<Event>;
      ghost var r := Next(t, q, Ensured(k));
      OnwardOne(t, q, Ensured(k));
      after, more, status := LookAtSpool(backoff, t, gated, k, p, after, r);
      OnwardConcat(t, q, events, more);
      events := events + more;
    }
  }

  /** `_delivery_loop`, for as many passes as given. With a schema manager the loop is gated. */
  method DeliveryLoop(s: Settings, t: Timing, gated: bool, passes: seq<Pass>) returns (log: seq<Event>, status: Status)
    requires s.Valid() && 0.0 < t.flushInterval && Monotone(passes)
    ensures (log, status) == Log(s, t, gated, passes, |passes|)
  {
    var m := Memory(None, None, false, false, !gated);
    var backoff := new Backoff(s);
    log, status := [], Running;
    for k := 0 to |passes|
      invariant fresh(backoff) && backoff.Valid() && backoff.settings == s
      invariant (log, status) == Log(s, t, gated, passes, k) && status.Running?
      invariant Mirrors(gated, m, backoff.calls, PastOf(t, log))
    {
      var more: seq<Event>;
      m, more, status := OnePass(backoff, t, gated, k, passes[k], m, PastOf(t, log));
      PastConcat(t, log, more);
      log := log + more;
      if !status.Running? {
        StaysEnded(s, t, gated, passes, k + 1);
        return;
      }
    }
  }

  /** Clock readings never go back. */
  ghost predicate Monotone(passes: seq<Pass>) {
    && (forall i :: 0 <= i < |passes| ==> passes[i].now <= passes[i].later)
    && (forall i, j :: 0 <= i < j < |passes| ==> passes[i].later <= passes[j].now)
  }

  /** A loop that has ended logs nothing more. */
  lemma {:induction false} StaysEnded(s: Settings, t: Timing, gated: bool, passes: seq<Pass>, n: nat)
    requires n <= |passes| && !Log(s, t, gated, passes, n).1.Running?
    ensures Log(s, t, gated, passes, |passes|) == Log(s, t, gated, passes, n)
    decreases |passes| - n
  {
    if n < |passes| {
      StaysEnded(s, t, gated, passes, n + 1);
    }
  }

  /** The flush at shutdown: `_schema_is_ready` stands in front of its one delivery too. */
  method ShutdownFlush(gated: bool, rows: nat, ensure: S.Outcome) returns (sent: bool, died: bool)
    ensures sent <==> rows > 0 && (gated ==> ensure.Ready?)
    ensures died <==> rows > 0 && gated && ensure.ValueError?
  {
    sent, died := false, false;
    if rows > 0 {
      if !gated {
        sent := true;
      } else {
        match ensure {
          case Ready => sent := true;
          case ValueError => died := true;
          case _ =>
        }
      }
    }
  }
}

/** Storage pauses: when persistence is parked, when a pause ends, and when the spool file is
    asked to give space back. Every action below runs without an await, so any interleaving of the
    persist and delivery coroutines is a sequence of them. */
module Pause {
  import opened Basics
  import opened SpoolState

  datatype Reason = SpoolIsFull | DiskIsFull | ReadOnlyDisk | NoDiskSpace | StorageProblem

  function ReasonOf(error: SpoolError): Reason {
    match error
    case PendingFull => SpoolIsFull
    case DiskFull => DiskIsFull
    case ReadOnly => ReadOnlyDisk
    case _ => StorageProblem
  }

  datatype Pause = Pause(
    episode: Option<Reason>, blocks: nat, attempts: nat, recoveries: nat,
    lastReclaim: Option<real>, rewriteAttempted: bool)

  const Calm := Pause(None, 0, 0, 0, None, false)

  /** The free-space check: not measurable, enough room, or below the reserve. */
  datatype Check = Unknown | Room | NoRoom

  /** What the spool answers to `reclaim` and, when it comes to that, to `compact`. */
  datatype Reclaimer = Reclaimer(
    available: bool, failed: bool, incremental: bool, freed: bool, canCompact: bool, compactFailed: bool)

  datatype Event =
    | Checked(check: Check)
    | Reclaimed(at: real)
    | Rewrote
    | Enqueued
    | Blocked(reason: Reason)
    | Resumed

  const RECLAIM_INTERVAL := 1.0

  /** `_block_on_storage`. */
  function Block(p: Pause, reason: Reason): Pause {
    if p.episode.None?
    then p.(attempts := p.attempts + 1, episode := Some(reason), blocks := p.blocks + 1)
    else p.(attempts := p.attempts + 1)
  }

  /** `_resume_after_storage_block`. */
  function Resume(p: Pause): Pause {
    (if p.episode.Some? then p.(recoveries := p.recoveries + 1, episode := None) else p).(rewriteAttempted := false)
  }

  /** `_reclaim_spool`: the new bookkeeping, whether space moved, and what was done to the file. */
  function Reclaim(p: Pause, now: real, spool: Reclaimer): (Pause, bool, seq<Event>) {
    if !spool.available then (p, false, [])
    else if p.lastReclaim.Some? && now - p.lastReclaim.value < RECLAIM_INTERVAL then (p, false, [])
    else
      var q := p.(lastReclaim := Some(now));
      if spool.failed then (q, false, [Reclaimed(now)])
      else if !spool.incremental && !p.rewriteAttempted then
        var r := q.(rewriteAttempted := true);
        if spool.canCompact then (r, !spool.compactFailed, [Reclaimed(now), Rewrote])
        else (r, spool.freed, [Reclaimed(now)])
      else (q, spool.freed, [Reclaimed(now)])
  }

  /** The guard in front of a durable write: bookkeeping, the check that decides, and the log. */
  function Guard(p: Pause, first: Check, now: real, spool: Reclaimer, second: Check): (Pause, Check, seq<Event>) {
    if !first.NoRoom? then (p, first, [Checked(first)])
    else
      var (q, moved, did) := Reclaim(p, now, spool);
      if moved then (q, second, [Checked(first)] + did + [Checked(second)])
      else (q, first, [Checked(first)] + did)
  }

  /** One call that touches the bookkeeping. `refused` is the storage failure an enqueue met, if any. */
  datatype Action =
    | PersistAttempt(first: Check, now: real, spool: Reclaimer, second: Check, refused: Option<Reason>)
    | DeliveryAcknowledged
    | DeliveryRefused(reason: Reason)

  function Act(p: Pause, a: Action): (Pause, seq<Event>) {
    match a
    case DeliveryAcknowledged => (Resume(p), [Resumed])
    case DeliveryRefused(reason) => (Block(p, reason), [Blocked(reason)])
    case PersistAttempt(first, now, spool, second, refused) =>
      var (q, check, log) := Guard(p, first, now, spool, second);
      if check.NoRoom? then (Block(q, NoDiskSpace), log + [Blocked(NoDiskSpace)])
      else
        match refused
        case None => (Resume(q), log + [Enqueued, Resumed])
        case Some(reason) => (Block(q, reason), log + [Enqueued, Blocked(reason)])
  }

  function Run(p: Pause, actions: seq<Action>): (Pause, seq<Event>)
    decreases actions
  {
    if actions == [] then (p, [])
    else
      var (q, log) := Act(p, actions[0]);
      var (r, rest) := Run(q, actions[1..]);
      (r, log + rest)
  }

  // ------------------------------------------------------------------ counters

  predicate Balanced(p: Pause) {
    p.blocks == p.recoveries + (if p.episode.Some? then 1 else 0) && p.attempts >= p.blocks
  }

  lemma ActBalanced(p: Pause, a: Action)
    requires Balanced(p)
    ensures Balanced(Act(p, a).0)
  {
  }

  /** Over every run: pauses are recoveries plus the open one, and attempts never fall below pauses. */
  lemma {:induction false} RunBalanced(p: Pause, actions: seq<Action>)
    requires Balanced(p)
    ensures Balanced(Run(p, actions).0)
    decreases actions
  {
    if actions != [] {
      ActBalanced(p, actions[0]);
      RunBalanced(Act(p, actions[0]).0, actions[1..]);
    }
  }

  // ------------------------------------------------------- rewrites and passes

  /** Between any two rewrites of the file the log shows a resume. */
  ghost predicate RewritesApart(log: seq<Event>) {
    forall i, j :: 0 <= i < j < |log| && log[i].Rewrote? && log[j].Rewrote? ==> ResumedBetween(log, i, j)
  }

  ghost predicate ResumedBetween(log: seq<Event>, i: nat, j: nat)
    requires i < j <= |log|
  {
    exists k :: i < k < j && log[k].Resumed?
  }

  /** Reclamation passes are at least the interval apart. */
  ghost predicate PassesApart(log: seq<Event>) {
    forall i, j :: 0 <= i < j < |log| && log[i].Reclaimed? && log[j].Reclaimed? ==>
                     log[j].at - log[i].at >= RECLAIM_INTERVAL
  }

  /** Every enqueue stands right behind a check that did not report a full disk. */
  ghost predicate EnqueuesChecked(log: seq<Event>) {
    forall j :: 0 <= j < |log| && log[j].Enqueued? ==> 0 < j && CheckedFree(log[j - 1])
  }

  predicate CheckedFree(e: Event) {
    e.Checked? && !e.check.NoRoom?
  }

  /** What the bookkeeping remembers of the log behind it. */
  ghost predicate Remembers(p: Pause, log: seq<Event>) {
    && (forall i :: 0 <= i < |log| && log[i].Rewrote? && !p.rewriteAttempted ==> ResumedBetween(log, i, |log|))
    && (forall i :: 0 <= i < |log| && log[i].Reclaimed? ==> p.lastReclaim.Some? && log[i].at <= p.lastReclaim.value)
  }

  ghost predicate GoodLog(p: Pause, log: seq<Event>) {
    Remembers(p, log) && RewritesApart(log) && PassesApart(log) && EnqueuesChecked(log)
  }

  lemma ResumedGrows(log: seq<Event>, more: seq<Event>, i: nat)
    requires i < |log| && ResumedBetween(log, i, |log|)
    ensures forall j :: |log| <= j <= |log + more| ==> ResumedBetween(log + more, i, j)
  {
    var k :| i < k < |log| && log[k].Resumed?;
    assert (log + more)[k].Resumed?;
  }

  /** One more event: what it must respect, and what has to be remembered afterwards. */
  lemma LogOne(p: Pause, log: seq<Event>, q: Pause, e: Event)
    requires GoodLog(p, log)
    requires e.Rewrote? ==> !p.rewriteAttempted && q.rewriteAttempted
    requires !e.Rewrote? && !e.Resumed? && p.rewriteAttempted ==> q.rewriteAttempted
    requires e.Reclaimed? ==>
               q.lastReclaim == Some(e.at) && (p.lastReclaim.Some? ==> e.at - p.lastReclaim.value >= RECLAIM_INTERVAL)
    requires !e.Reclaimed? ==> q.lastReclaim == p.lastReclaim
    requires e.Enqueued? ==> log != [] && CheckedFree(log[|log| - 1])
    ensures GoodLog(q, log + [e])
  {
    var all := log + [e];
    forall i | 0 <= i < |log| && log[i].Rewrote? && (e.Resumed? || !p.rewriteAttempted)
      ensures ResumedBetween(all, i, |all|)
    {
      if e.Resumed? {
        assert all[|log|].Resumed?;
      } else {
        ResumedGrows(log, [e], i);
      }
    }
    forall i, j | 0 <= i < j < |all| && all[i].Rewrote? && all[j].Rewrote? ensures ResumedBetween(all, i, j) {
      if j < |log| {
        assert ResumedBetween(log, i, j);
        var k :| i < k < j && log[k].Resumed?;
        assert all[k].Resumed?;
      } else {
        ResumedGrows(log, [e], i);
      }
    }
  }

  lemma LogReclaim(p: Pause, log: seq<Event>, now: real, spool: Reclaimer)
    requires GoodLog(p, log)
    ensures GoodLog(Reclaim(p, now, spool).0, log + Reclaim(p, now, spool).2)
  {
    var (q, moved, did) := Reclaim(p, now, spool);
    if did == [] {
      assert log + did == log;
    } else {
      var middle := p.(lastReclaim := Some(now));
      if |did| == 1 {
        LogOne(p, log, q, did[0]);
        assert log + did == log + [did[0]];
      } else {
        LogOne(p, log, middle, did[0]);
        LogOne(middle, log + [did[0]], q, did[1]);
        assert log + did == (log + [did[0]]) + [did[1]];
      }
    }
  }

  lemma LogGuard(p: Pause, log: seq<Event>, first: Check, now: real, spool: Reclaimer, second: Check)
    requires GoodLog(p, log)
    ensures var (q, check, did) := Guard(p, first, now, spool, second);
            GoodLog(q, log + did) && did != [] && (!check.NoRoom? ==> CheckedFree(did[|did| - 1]))
  {
    LogOne(p, log, p, Checked(first));
    if first.NoRoom? {
      var (q, moved, did) := Reclaim(p, now, spool);
      var checked := log + [Checked(first)];
      LogReclaim(p, checked, now, spool);
      assert log + ([Checked(first)] + did) == checked + did;
      if moved {
        LogOne(q, checked + did, q, Checked(second));
        assert log + ([Checked(first)] + did + [Checked(second)]) == (checked + did) + [Checked(second)];
      }
    }
  }

  lemma LogAct(p: Pause, log: seq<Event>, a: Action)
    requires GoodLog(p, log)
    ensures GoodLog(Act(p, a).0, log + Act(p, a).1)
  {
    match a
    case DeliveryAcknowledged => LogOne(p, log, Resume(p), Resumed);
    case DeliveryRefused(reason) => LogOne(p, log, Block(p, reason), Blocked(reason));
    case PersistAttempt(first, now, spool, second, refused) =>
      var (q, check, did) := Guard(p, first, now, spool, second);
      LogGuard(p, log, first, now, spool, second);
      if check.NoRoom? {
        LogOne(q, log + did, Block(q, NoDiskSpace), Blocked(NoDiskSpace));
        assert log + (did + [Blocked(NoDiskSpace)]) == (log + did) + [Blocked(NoDiskSpace)];
      } else {
        LogOne(q, log + did, q, Enqueued);
        var last := if refused.None? then Resumed else Blocked(refused.value);
        var after := if refused.None? then Resume(q) else Block(q, refused.value);
        LogOne(q, log + did + [Enqueued], after, last);
        assert log + (did + [Enqueued, last]) == ((log + did) + [Enqueued]) + [last];
      }
  }

  lemma {:induction false} RunLog(p: Pause, log: seq<Event>, actions: seq<Action>)
    requires GoodLog(p, log)
    ensures GoodLog(Run(p, actions).0, log + Run(p, actions).1)
    decreases actions
  {
    if actions == [] {
      assert log + [] == log;
    } else {
      var (q, did) := Act(p, actions[0]);
      LogAct(p, log, actions[0]);
      RunLog(q, log + did, actions[1..]);
      SeqAssoc(log, did, Run(q, actions[1..]).1);
    }
  }

  /** Over every run from a fresh start: at most one rewrite between two resumes, passes at least the
      interval apart, and no enqueue right after a check that reported a full disk. */
  lemma PauseDiscipline(actions: seq<Action>)
    ensures var log := Run(Calm, actions).1;
            RewritesApart(log) && PassesApart(log) && EnqueuesChecked(log) && Balanced(Run(Calm, actions).0)
  {
    RunLog(Calm, [], actions);
    assert [] + Run(Calm, actions).1 == Run(Calm, actions).1;
    RunBalanced(Calm, actions);
  }

  // ----------------------------------------------------- what the log determines

  /** A pass over the file is due when the interval since the last one has passed; a file without
      incremental vacuum is rewritten instead, once per pause; and space moved if the rewrite worked or,
      without one, if pages were freed. */
  lemma ReclaimExactly(p: Pause, now: real, spool: Reclaimer)
    ensures var (q, moved, did) := Reclaim(p, now, spool);
            var due := spool.available && (p.lastReclaim.None? || now - p.lastReclaim.value >= RECLAIM_INTERVAL);
            var worn := due && !spool.failed && !spool.incremental && !p.rewriteAttempted;
            && (did != [] <==> due) && (Rewrote in did <==> worn && spool.canCompact)
            && q.lastReclaim == (if due then Some(now) else p.lastReclaim)
            && q.rewriteAttempted == (p.rewriteAttempted || worn)
            && (moved <==> due && !spool.failed && if worn
                                                      && spool.canCompact then !spool.compactFailed else spool.freed)
            && q.episode == p.episode && q.blocks == p.blocks && q.attempts == p.attempts
            && q.recoveries == p.recoveries
  {
  }

  /** The first check decides unless it reports a full disk and a pass then moved something. */
  lemma GuardExactly(p: Pause, first: Check, now: real, spool: Reclaimer, second: Check)
    ensures var (q, check, log) := Guard(p, first, now, spool, second);
            && check == (if first.NoRoom? && Reclaim(p, now, spool).1 then second else first)
            && q == (if first.NoRoom? then Reclaim(p, now, spool).0 else p)
            && log != [] && log[0] == Checked(first)
  {
  }

  /** What an action logs last, and that it enqueues exactly with room. */
  lemma ActLogs(p: Pause, a: Action)
    ensures var log := Act(p, a).1;
            && log != [] && (forall i :: 0 <= i < |log| - 1 ==> !log[i].Blocked? && !log[i].Resumed?)
            && (match a
                case DeliveryAcknowledged => log == [Resumed]
                case DeliveryRefused(reason) => log == [Blocked(reason)]
                case PersistAttempt(first, now, spool, second, refused) =>
                  var room := !Guard(p, first, now, spool, second).1.NoRoom?;
                  && (Enqueued in log <==> room)
                  && log[|log| - 1] == (if !room then Blocked(NoDiskSpace)
                                        else if refused.None? then Resumed else Blocked(refused.value)))
  {
    if a.PersistAttempt? {
      GuardLogs(p, a.first, a.now, a.spool, a.second);
    }
  }

  lemma GuardLogs(p: Pause, first: Check, now: real, spool: Reclaimer, second: Check)
    ensures forall e :: e in Guard(p, first, now, spool, second).2 ==> !e.Blocked? && !e.Resumed? && !e.Enqueued?
  {
  }

  function BlockedAt(log: seq<Event>): set<nat> {
    set i: nat | i < |log| && log[i].Blocked?
  }

  /** The refusals that found no pause open. */
  ghost function OpeningsAt(log: seq<Event>): set<nat> {
    set i: nat | i < |log| && Opens(log, i)
  }

  ghost predicate Opens(log: seq<Event>, i: nat) {
    i < |log| && log[i].Blocked? && forall j: nat :: j < i && log[j].Blocked? ==> ResumedBetween(log, j, i)
  }

  /** A pause is open since event `i`. */
  ghost predicate OpenSince(log: seq<Event>, i: nat) {
    Opens(log, i) && forall k: nat :: i < k < |log| ==> !log[k].Resumed?
  }

  /** The bookkeeping is what the log says: every refusal is an attempt, those that find no pause open
      open one, its reason is the first refusal's, and it stays open until something is stored or
      delivered. */
  ghost predicate Keeps(p: Pause, log: seq<Event>) {
    && p.attempts == |BlockedAt(log)| && p.blocks == |OpeningsAt(log)|
    && (forall i: nat :: OpenSince(log, i) ==> p.episode == Some(log[i].reason))
    && (p.episode.Some? ==> exists i: nat :: OpenSince(log, i))
  }

  lemma OpensEarlier(log: seq<Event>, e: Event, i: nat)
    requires i < |log|
    ensures Opens(log + [e], i) <==> Opens(log, i)
  {
    var all := log + [e];
    forall j: nat | j < i ensures ResumedBetween(all, j, i) <==> ResumedBetween(log, j, i) {
      if k :| j < k < i && log[k].Resumed? {
        assert all[k].Resumed?;
      }
      if k :| j < k < i && all[k].Resumed? {
        assert log[k].Resumed?;
      }
    }
    assert all[i] == log[i] && forall j: nat :: j < i ==> all[j] == log[j];
  }

  /** The newest refusal opens a pause exactly if none is open. */
  lemma OpensLast(p: Pause, log: seq<Event>, e: Event)
    requires Keeps(p, log) && e.Blocked?
    ensures Opens(log + [e], |log|) <==> p.episode.None?
  {
    var all, n := log + [e], |log|;
    if p.episode.Some? {
      var i: nat :| OpenSince(log, i);
      assert all[i].Blocked? && forall k: nat :: i < k < n ==> !all[k].Resumed?;
      assert !ResumedBetween(all, i, n);
    } else {
      forall j: nat | j < n && all[j].Blocked? ensures ResumedBetween(all, j, n) {
        ClosedBehind(log, j);
        assert forall k: nat :: k < n ==> all[k] == log[k];
        var k :| j < k < n && log[k].Resumed?;
        assert all[k].Resumed?;
      }
    }
  }

  /** With no pause open every refusal was followed by a resume. */
  lemma {:induction false} ClosedBehind(log: seq<Event>, j: nat)
    requires j < |log| && log[j].Blocked? && forall i: nat :: !OpenSince(log, i)
    ensures ResumedBetween(log, j, |log|)
    decreases j
  {
    if forall k: nat :: j < k < |log| ==> !log[k].Resumed? {
      assert !OpenSince(log, j);
      var i: nat :| i < j && log[i].Blocked? && !ResumedBetween(log, i, j);
      ClosedBehind(log, i);
    }
  }

  lemma OneMore(a: set<nat>, b: set<nat>, n: nat, grows: bool)
    requires n !in a && forall i: nat :: i in b <==> i in a || (grows && i == n)
    ensures |b| == |a| + if grows then 1 else 0
  {
    assert b == a + if grows then {n} else {};
  }

  lemma BlockedGrow(log: seq<Event>, e: Event)
    ensures |BlockedAt(log + [e])| == |BlockedAt(log)| + if e.Blocked? then 1 else 0
  {
    OneMore(BlockedAt(log), BlockedAt(log + [e]), |log|, e.Blocked?);
  }

  lemma OpeningsGrow(log: seq<Event>, e: Event)
    ensures |OpeningsAt(log + [e])| == |OpeningsAt(log)| + if Opens(log + [e], |log|) then 1 else 0
  {
    var before, after, opens := OpeningsAt(log), OpeningsAt(log + [e]), Opens(log + [e], |log|);
    forall i: nat ensures i in after <==> i in before || (opens && i == |log|) {
      if i < |log| {
        OpensEarlier(log, e, i);
      }
    }
    OneMore(before, after, |log|, opens);
  }

  lemma SetsGrow(log: seq<Event>, e: Event)
    ensures |BlockedAt(log + [e])| == |BlockedAt(log)| + if e.Blocked? then 1 else 0
    ensures |OpeningsAt(log + [e])| == |OpeningsAt(log)| + if Opens(log + [e], |log|) then 1 else 0
  {
    BlockedGrow(log, e);
    OpeningsGrow(log, e);
  }

  lemma OpenEarlier(log: seq<Event>, e: Event, i: nat)
    requires i < |log| && !e.Resumed?
    ensures OpenSince(log + [e], i) <==> OpenSince(log, i)
  {
    OpensEarlier(log, e, i);
    assert forall k: nat :: k < |log| ==> (log + [e])[k] == log[k];
  }

  lemma BlockKeeps(p: Pause, log: seq<Event>, reason: Reason)
    requires Keeps(p, log)
    ensures Keeps(Block(p, reason), log + [Blocked(reason)])
  {
    var e := Blocked(reason);
    SetsGrow(log, e);
    OpensLast(p, log, e);
    if p.episode.Some? {
      StillOpen(p, log, e);
    } else {
      NowOpen(p, log, e);
    }
  }

  lemma StillOpen(p: Pause, log: seq<Event>, e: Event)
    requires Keeps(p, log) && p.episode.Some? && !e.Resumed?
    ensures forall i: nat :: OpenSince(log + [e], i) ==> p.episode == Some((log + [e])[i].reason)
    ensures exists i: nat :: OpenSince(log + [e], i)
  {
    var all := log + [e];
    forall i: nat | OpenSince(all, i) ensures p.episode == Some(all[i].reason) {
      if i == |log| {
        OpensLast(p, log, e);
      } else {
        OpenEarlier(log, e, i);
      }
    }
    var i: nat :| OpenSince(log, i);
    OpenEarlier(log, e, i);
  }

  lemma NowOpen(p: Pause, log: seq<Event>, e: Event)
    requires Keeps(p, log) && p.episode.None? && e.Blocked?
    ensures forall i: nat :: OpenSince(log + [e], i) ==> i == |log|
    ensures OpenSince(log + [e], |log|)
  {
    OpensLast(p, log, e);
    forall i: nat | OpenSince(log + [e], i) ensures i == |log| {
      if i < |log| {
        OpenEarlier(log, e, i);
      }
    }
  }

  lemma ResumeKeeps(p: Pause, log: seq<Event>)
    requires Keeps(p, log)
    ensures Keeps(Resume(p), log + [Resumed])
  {
    SetsGrow(log, Resumed);
    assert (log + [Resumed])[|log|].Resumed?;
  }

  /** Events that neither open nor close a pause. */
  lemma OtherKeeps(p: Pause, log: seq<Event>, q: Pause, e: Event)
    requires Keeps(p, log) && !e.Blocked? && !e.Resumed?
    requires q.episode == p.episode && q.blocks == p.blocks && q.attempts == p.attempts
    ensures Keeps(q, log + [e])
  {
    SetsGrow(log, e);
    if p.episode.Some? {
      StillOpen(p, log, e);
    } else {
      forall i: nat ensures !OpenSince(log + [e], i) {
        if i < |log| {
          OpenEarlier(log, e, i);
        }
      }
    }
  }

  lemma ReclaimKeeps(p: Pause, log: seq<Event>, now: real, spool: Reclaimer)
    requires Keeps(p, log)
    ensures Keeps(Reclaim(p, now, spool).0, log + Reclaim(p, now, spool).2)
  {
    var (q, moved, did) := Reclaim(p, now, spool);
    if did == [] {
      assert log + did == log;
    } else {
      OtherKeeps(p, log, q, did[0]);
      if |did| == 1 {
        assert log + did == log + [did[0]];
      } else {
        OtherKeeps(q, log + [did[0]], q, did[1]);
        assert log + did == (log + [did[0]]) + [did[1]];
      }
    }
  }

  lemma GuardKeeps(p: Pause, log: seq<Event>, first: Check, now: real, spool: Reclaimer, second: Check)
    requires Keeps(p, log)
    ensures Keeps(Guard(p, first, now, spool, second).0, log + Guard(p, first, now, spool, second).2)
  {
    OtherKeeps(p, log, p, Checked(first));
    if first.NoRoom? {
      var (q, moved, did) := Reclaim(p, now, spool);
      var checked := log + [Checked(first)];
      ReclaimKeeps(p, checked, now, spool);
      assert log + ([Checked(first)] + did) == checked + did;
      if moved {
        OtherKeeps(q, checked + did, q, Checked(second));
        assert log + ([Checked(first)] + did + [Checked(second)]) == (checked + did) + [Checked(second)];
      }
    }
  }

  lemma ActKeeps(p: Pause, log: seq<Event>, a: Action)
    requires Keeps(p, log)
    ensures Keeps(Act(p, a).0, log + Act(p, a).1)
  {
    match a
    case DeliveryAcknowledged => ResumeKeeps(p, log);
    case DeliveryRefused(reason) => BlockKeeps(p, log, reason);
    case PersistAttempt(first, now, spool, second, refused) =>
      var (q, check, did) := Guard(p, first, now, spool, second);
      GuardKeeps(p, log, first, now, spool, second);
      if check.NoRoom? {
        BlockKeeps(q, log + did, NoDiskSpace);
        assert log + (did + [Blocked(NoDiskSpace)]) == (log + did) + [Blocked(NoDiskSpace)];
      } else {
        OtherKeeps(q, log + did, q, Enqueued);
        var last := if refused.None? then Resumed else Blocked(refused.value);
        if refused.None? {
          ResumeKeeps(q, log + did + [Enqueued]);
        } else {
          BlockKeeps(q, log + did + [Enqueued], refused.value);
        }
        assert log + (did + [Enqueued, last]) == ((log + did) + [Enqueued]) + [last];
      }
  }

  lemma {:induction false} RunKeepsLog(p: Pause, log: seq<Event>, actions: seq<Action>)
    requires Keeps(p, log)
    ensures Keeps(Run(p, actions).0, log + Run(p, actions).1)
    decreases actions
  {
    if actions == [] {
      assert log + [] == log;
    } else {
      var (q, did) := Act(p, actions[0]);
      ActKeeps(p, log, actions[0]);
      RunKeepsLog(q, log + did, actions[1..]);
      SeqAssoc(log, did, Run(q, actions[1..]).1);
    }
  }

  /** Over every run from a fresh start the pause state and its counters are what the log determines. */
  lemma PauseKept(actions: seq<Action>)
    ensures Keeps(Run(Calm, actions).0, Run(Calm, actions).1)
  {
    RunKeepsLog(Calm, [], actions);
    assert [] + Run(Calm, actions).1 == Run(Calm, actions).1;
  }
}

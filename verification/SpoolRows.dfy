/** Facts about the spool's row sequences: sums, filters, the ring buffer, contents by id. */
module SpoolRows {
  import opened Basics
  import opened SpoolState

  // -------------------------------------------------------------------- sums

  lemma {:induction false} PendingBytesConcat(a: seq<Row>, b: seq<Row>)
    ensures PendingBytes(a + b) == PendingBytes(a) + PendingBytes(b)
  {
    if b == [] {
      assert a + b == a;
    } else {
      assert (a + b)[..|a + b| - 1] == a + b[..|b| - 1];
      PendingBytesConcat(a, b[..|b| - 1]);
    }
  }

  lemma {:induction false} DeadBytesConcat(a: seq<DeadRow>, b: seq<DeadRow>)
    ensures DeadBytes(a + b) == DeadBytes(a) + DeadBytes(b)
  {
    if a == [] {
      assert a + b == b;
    } else {
      assert (a + b)[1..] == a[1..] + b;
      DeadBytesConcat(a[1..], b);
    }
  }

  lemma {:induction false} EventBytesConcat(a: seq<NewEvent>, b: seq<NewEvent>)
    ensures EventBytes(a + b) == EventBytes(a) + EventBytes(b)
  {
    if a == [] {
      assert a + b == b;
    } else {
      assert (a + b)[1..] == a[1..] + b;
      EventBytesConcat(a[1..], b);
    }
  }

  lemma NewRowsConcat(last: nat, a: seq<NewEvent>, b: seq<NewEvent>)
    ensures NewRows(last, a + b) == NewRows(last, a) + NewRows(last + |a|, b)
  {
  }

  lemma {:induction false} NewRowsBytes(last: nat, events: seq<NewEvent>)
    ensures PendingBytes(NewRows(last, events)) == EventBytes(events)
  {
    if events != [] {
      var n := |events| - 1;
      assert events == events[..n] + [events[n]];
      NewRowsConcat(last, events[..n], [events[n]]);
      PendingBytesConcat(NewRows(last, events[..n]), NewRows(last + n, [events[n]]));
      EventBytesConcat(events[..n], [events[n]]);
      NewRowsBytes(last, events[..n]);
      assert NewRows(last + n, [events[n]]) == [NewRow(events[n], last + 1 + n)];
    }
  }

  // ----------------------------------------------------------------- filters

  lemma {:induction false} WithoutIn(rows: seq<Row>, gone: set<int>, r: Row)
    ensures r in Without(rows, gone) <==> r in rows && r.sequence !in gone
  {
    if rows != [] {
      WithoutIn(rows[..|rows| - 1], gone, r);
      assert rows == rows[..|rows| - 1] + [rows[|rows| - 1]];
    }
  }

  lemma {:induction false} WithoutOrdered(rows: seq<Row>, gone: set<int>)
    requires PendingOrdered(rows)
    ensures PendingOrdered(Without(rows, gone))
  {
    if rows != [] {
      var init, last := rows[..|rows| - 1], rows[|rows| - 1];
      WithoutOrdered(init, gone);
      forall r | r in Without(init, gone) ensures r.sequence < last.sequence && r.id != last.id {
        WithoutIn(init, gone, r);
      }
    }
  }

  lemma {:induction false} DeadWithoutIn(rows: seq<DeadRow>, gone: set<int>, r: DeadRow)
    ensures r in DeadWithout(rows, gone) <==> r in rows && r.original !in gone
  {
    if rows != [] {
      DeadWithoutIn(rows[..|rows| - 1], gone, r);
      assert rows == rows[..|rows| - 1] + [rows[|rows| - 1]];
    }
  }

  lemma {:induction false} DeadWithoutDistinct(rows: seq<DeadRow>, gone: set<int>)
    requires DeadDistinct(rows)
    ensures DeadDistinct(DeadWithout(rows, gone))
  {
    if rows != [] {
      var init, last := rows[..|rows| - 1], rows[|rows| - 1];
      DeadWithoutDistinct(init, gone);
      forall r | r in DeadWithout(init, gone) ensures r.original != last.original && r.id != last.id {
        DeadWithoutIn(init, gone, r);
      }
    }
  }

  lemma {:induction false} WithoutConcat(a: seq<Row>, b: seq<Row>, gone: set<int>)
    ensures Without(a + b, gone) == Without(a, gone) + Without(b, gone)
  {
    if b == [] {
      assert a + b == a;
    } else {
      assert (a + b)[..|a + b| - 1] == a + b[..|b| - 1];
      WithoutConcat(a, b[..|b| - 1], gone);
    }
  }

  lemma {:induction false} WithoutNone(rows: seq<Row>, gone: set<int>)
    requires forall r :: r in rows ==> r.sequence !in gone
    ensures Without(rows, gone) == rows
  {
    if rows != [] {
      assert rows == rows[..|rows| - 1] + [rows[|rows| - 1]];
      WithoutNone(rows[..|rows| - 1], gone);
    }
  }

  lemma {:induction false} WithoutAll(rows: seq<Row>, gone: set<int>)
    requires forall r :: r in rows ==> r.sequence in gone
    ensures Without(rows, gone) == []
  {
    if rows != [] {
      assert rows == rows[..|rows| - 1] + [rows[|rows| - 1]];
      WithoutAll(rows[..|rows| - 1], gone);
    }
  }

  /** Deleting a prefix by its sequence numbers leaves exactly the rest. */
  lemma WithoutPrefix(rows: seq<Row>, n: nat)
    requires n <= |rows| && PendingOrdered(rows)
    ensures Without(rows, AsSet(Sequences(rows[..n]))) == rows[n..]
  {
    var gone := AsSet(Sequences(rows[..n]));
    forall r | r in rows[..n] ensures r.sequence in gone {
      var i :| 0 <= i < n && rows[i] == r;
      assert Sequences(rows[..n])[i] == r.sequence;
    }
    forall r | r in rows[n..] ensures r.sequence !in gone {
    }
    assert rows == rows[..n] + rows[n..];
    WithoutConcat(rows[..n], rows[n..], gone);
    WithoutAll(rows[..n], gone);
    WithoutNone(rows[n..], gone);
  }

  /** Statement-by-statement deletion composes into one deletion of the union. */
  lemma {:induction false} WithoutTwice(rows: seq<Row>, a: set<int>, b: set<int>)
    ensures Without(Without(rows, a), b) == Without(rows, a + b)
  {
    if rows != [] {
      var init, last := rows[..|rows| - 1], rows[|rows| - 1];
      WithoutTwice(init, a, b);
      var tail: seq<Row> := if last.sequence in a then [] else [last];
      WithoutConcat(Without(init, a), tail, b);
    }
  }

  lemma {:induction false} DeadWithoutConcat(a: seq<DeadRow>, b: seq<DeadRow>, gone: set<int>)
    ensures DeadWithout(a + b, gone) == DeadWithout(a, gone) + DeadWithout(b, gone)
  {
    if b == [] {
      assert a + b == a;
    } else {
      assert (a + b)[..|a + b| - 1] == a + b[..|b| - 1];
      DeadWithoutConcat(a, b[..|b| - 1], gone);
    }
  }

  lemma {:induction false} DeadWithoutTwice(rows: seq<DeadRow>, a: set<int>, b: set<int>)
    ensures DeadWithout(DeadWithout(rows, a), b) == DeadWithout(rows, a + b)
  {
    if rows != [] {
      var init, last := rows[..|rows| - 1], rows[|rows| - 1];
      DeadWithoutTwice(init, a, b);
      var tail: seq<DeadRow> := if last.original in a then [] else [last];
      DeadWithoutConcat(DeadWithout(init, a), tail, b);
    }
  }

  /** Removing one named row drops one row and its payload bytes. */
  lemma {:induction false} WithoutOne(rows: seq<Row>, r: Row)
    requires PendingOrdered(rows) && r in rows
    ensures |Without(rows, {r.sequence})| == |rows| - 1
    ensures PendingBytes(Without(rows, {r.sequence})) == PendingBytes(rows) - |r.payload|
  {
    var init, last := rows[..|rows| - 1], rows[|rows| - 1];
    if last == r {
      WithoutNone(init, {r.sequence});
      assert Without(rows, {r.sequence}) == init;
    } else {
      assert r in init;
      WithoutOne(init, r);
      PendingBytesConcat(Without(init, {r.sequence}), [last]);
    }
  }

  lemma DeadBytesSnoc(rows: seq<DeadRow>)
    requires rows != []
    ensures DeadBytes(rows) == DeadBytes(rows[..|rows| - 1]) + |rows[|rows| - 1].payload|
  {
    DeadBytesConcat(rows[..|rows| - 1], [rows[|rows| - 1]]);
    assert rows == rows[..|rows| - 1] + [rows[|rows| - 1]];
  }

  lemma {:induction false} DeadWithoutNone(rows: seq<DeadRow>, gone: set<int>)
    requires forall r :: r in rows ==> r.original !in gone
    ensures DeadWithout(rows, gone) == rows
  {
    if rows != [] {
      assert rows == rows[..|rows| - 1] + [rows[|rows| - 1]];
      DeadWithoutNone(rows[..|rows| - 1], gone);
    }
  }

  lemma {:induction false} DeadWithoutOne(rows: seq<DeadRow>, r: DeadRow)
    requires DeadDistinct(rows) && r in rows
    ensures |DeadWithout(rows, {r.original})| == |rows| - 1
    ensures DeadBytes(DeadWithout(rows, {r.original})) == DeadBytes(rows) - |r.payload|
  {
    var init, last := rows[..|rows| - 1], rows[|rows| - 1];
    DeadBytesSnoc(rows);
    if last == r {
      DeadWithoutNone(init, {r.original});
      assert DeadWithout(rows, {r.original}) == init;
    } else {
      assert r in init;
      DeadWithoutOne(init, r);
      DeadBytesConcat(DeadWithout(init, {r.original}), [last]);
    }
  }

  /** A filter never grows the tables. */
  lemma {:induction false} WithoutShrinks(rows: seq<Row>, gone: set<int>)
    ensures |Without(rows, gone)| <= |rows| && PendingBytes(Without(rows, gone)) <= PendingBytes(rows)
  {
    if rows != [] {
      WithoutShrinks(rows[..|rows| - 1], gone);
      var last := rows[|rows| - 1];
      PendingBytesConcat(Without(rows[..|rows| - 1], gone), if last.sequence in gone then [] else [last]);
    }
  }

  lemma {:induction false} DeadWithoutShrinks(rows: seq<DeadRow>, gone: set<int>)
    ensures |DeadWithout(rows, gone)| <= |rows| && DeadBytes(DeadWithout(rows, gone)) <= DeadBytes(rows)
  {
    if rows != [] {
      DeadBytesSnoc(rows);
      DeadWithoutShrinks(rows[..|rows| - 1], gone);
      var last := rows[|rows| - 1];
      DeadBytesConcat(DeadWithout(rows[..|rows| - 1], gone), if last.original in gone then [] else [last]);
    }
  }

  lemma {:induction false} TouchBytes(rows: seq<Row>, which: set<int>, error: string, uncertain: bool)
    ensures PendingBytes(Touch(rows, which, error, uncertain)) == PendingBytes(rows)
  {
    if rows != [] {
      var n := |rows| - 1;
      TouchBytes(rows[..n], which, error, uncertain);
      assert Touch(rows, which, error, uncertain)[..n] == Touch(rows[..n], which, error, uncertain);
    }
  }

  // --------------------------------------------------------------- the ring

  lemma {:induction false} SuffixBytes(rows: seq<DeadRow>, k: nat)
    requires k <= |rows|
    ensures DeadBytes(rows[k..]) <= DeadBytes(rows)
  {
    if k > 0 {
      SuffixBytes(rows[1..], k - 1);
      assert rows[1..][k - 1..] == rows[k..];
    }
  }

  lemma {:induction false} KeepFits(limits: Limits, history: seq<DeadRow>)
    requires limits.Valid()
    ensures Fits(limits, Keep(limits, history))
  {
    if history != [] && !Fits(limits, history) {
      KeepFits(limits, history[1..]);
    }
  }

  lemma KeepAll(limits: Limits, history: seq<DeadRow>, k: nat)
    requires Fits(limits, history) && k <= |history|
    ensures Fits(limits, history[k..]) && Keep(limits, history) == history
  {
    SuffixBytes(history, k);
  }

  /** The kept rows are the longest suffix that fits: exactly the suffixes up to it do. */
  lemma {:induction false} KeepIsLongest(limits: Limits, history: seq<DeadRow>, k: nat)
    requires limits.Valid() && k <= |history|
    ensures Fits(limits, history[k..]) <==> |history| - k <= |Keep(limits, history)|
  {
    if Fits(limits, history) {
      KeepAll(limits, history, k);
    } else if k == 0 {
      assert history[0..] == history;
    } else {
      assert history[1..][k - 1..] == history[k..];
      KeepIsLongest(limits, history[1..], k - 1);
    }
  }

  /** Appending to what was kept keeps what the whole history would have kept. */
  lemma {:induction false} KeepAppend(limits: Limits, history: seq<DeadRow>, more: seq<DeadRow>)
    requires limits.Valid()
    ensures Keep(limits, Keep(limits, history) + more) == Keep(limits, history + more)
  {
    if history != [] && !Fits(limits, history) {
      DeadBytesConcat(history, more);
      assert !Fits(limits, history + more);
      assert (history + more)[1..] == history[1..] + more;
      KeepAppend(limits, history[1..], more);
    }
  }

  // -------------------------------------------------------- contents by id

  lemma {:induction false} PendingContentsExact(rows: seq<Row>)
    requires PendingOrdered(rows)
    ensures forall r :: r in rows ==> r.id in PendingContents(rows)
                                      && PendingContents(rows)[r.id] == (r.payload, r.created)
    ensures forall id :: id in PendingContents(rows) ==> exists r :: r in rows && r.id == id
  {
    if rows != [] {
      var init, last := rows[..|rows| - 1], rows[|rows| - 1];
      PendingContentsExact(init);
      assert rows == init + [last];
      forall r | r in init ensures r.id != last.id {
      }
    }
  }

  lemma {:induction false} DeadContentsExact(rows: seq<DeadRow>)
    requires DeadDistinct(rows)
    ensures forall r :: r in rows ==> r.id in DeadContents(rows) && DeadContents(rows)[r.id] == (r.payload, r.created)
    ensures forall id :: id in DeadContents(rows) ==> exists r :: r in rows && r.id == id
  {
    if rows != [] {
      var init, last := rows[..|rows| - 1], rows[|rows| - 1];
      DeadContentsExact(init);
      assert rows == init + [last];
      forall r | r in init ensures r.id != last.id {
      }
    }
  }

  /** `Contents` is exactly the id-to-content relation of the two tables. */
  lemma ContentsExact(db: Database)
    requires Consistent(db)
    ensures forall r :: r in db.pending ==> r.id in Contents(db) && Contents(db)[r.id] == (r.payload, r.created)
    ensures forall d :: d in db.dead ==> d.id in Contents(db) && Contents(db)[d.id] == (d.payload, d.created)
    ensures forall id :: id in Contents(db) ==>
                           (exists r :: r in db.pending && r.id == id) || (exists d :: d in db.dead && d.id == id)
  {
    PendingContentsExact(db.pending);
    DeadContentsExact(db.dead);
    forall d | d in db.dead ensures d.id !in PendingContents(db.pending) {
    }
  }

  lemma {:induction false} PendingContentsInsert(rows: seq<Row>, last: nat, events: seq<NewEvent>)
    ensures PendingContents(rows + NewRows(last, events)) == PendingContents(rows) + EventContents(events)
  {
    var all := rows + NewRows(last, events);
    if events == [] {
      assert all == rows;
    } else {
      var n := |events| - 1;
      assert all[..|all| - 1] == rows + NewRows(last, events[..n]);
      PendingContentsInsert(rows, last, events[..n]);
    }
  }

  lemma {:induction false} EventContentsConcat(a: seq<NewEvent>, b: seq<NewEvent>)
    ensures EventContents(a + b) == EventContents(a) + EventContents(b)
  {
    if b == [] {
      assert a + b == a;
    } else {
      assert (a + b)[..|a + b| - 1] == a + b[..|b| - 1];
      EventContentsConcat(a, b[..|b| - 1]);
    }
  }

  // ------------------------------------------------------------------- Admit

  lemma ContentsGrow(known: map<string, Content>, e: NewEvent, tail: seq<NewEvent>)
    ensures known + EventContents([e] + tail) == known[e.id := ContentOf(e)] + EventContents(tail)
  {
    EventContentsConcat([e], tail);
    assert EventContents([e]) == map[e.id := ContentOf(e)];
  }

  /** Admitting a concatenation is admitting the parts one after the other. */
  lemma {:induction false} AdmitConcat(known: map<string, Content>, xs: seq<NewEvent>, ys: seq<NewEvent>)
    ensures Admit(known, xs).None? ==> Admit(known, xs + ys).None?
    ensures Admit(known, xs).Some? ==>
              var first := Admit(known, xs).value;
              var rest := Admit(known + EventContents(first), ys);
              Admit(known, xs + ys) == if rest.None? then None else Some(first + rest.value)
    decreases xs
  {
    if xs == [] {
      assert xs + ys == ys;
      assert known + EventContents([]) == known;
      if Admit(known, ys).Some? {
        assert [] + Admit(known, ys).value == Admit(known, ys).value;
      }
    } else {
      var e := xs[0];
      assert (xs + ys)[1..] == xs[1..] + ys;
      if e.id in known {
        AdmitConcat(known, xs[1..], ys);
      } else {
        var grown := known[e.id := ContentOf(e)];
        AdmitConcat(grown, xs[1..], ys);
        if Admit(known, xs).Some? {
          var tail := Admit(grown, xs[1..]).value;
          ContentsGrow(known, e, tail);
          var rest := Admit(grown + EventContents(tail), ys);
          if rest.Some? {
            assert ([e] + tail) + rest.value == [e] + (tail + rest.value);
          }
        }
      }
    }
  }

  lemma AdmitOne(known: map<string, Content>, e: NewEvent)
    ensures Admit(known, [e]) ==
            if e.id !in known then Some([e]) else if known[e.id] == ContentOf(e) then Some([]) else None
  {
    assert [e] + [] == [e];
  }

  /** Admitting one more event at the end of a batch. */
  lemma AdmitSnoc(known: map<string, Content>, events: seq<NewEvent>, e: NewEvent)
    requires Admit(known, events).Some?
    ensures var kept := Admit(known, events).value;
            var all := known + EventContents(kept);
            Admit(known, events + [e]) ==
            if e.id !in all then Some(kept + [e]) else if all[e.id] == ContentOf(e) then Some(kept) else None
  {
    var kept := Admit(known, events).value;
    AdmitConcat(known, events, [e]);
    AdmitOne(known + EventContents(kept), e);
    assert kept + [] == kept;
  }

  /** Exactly unknown ids are admitted, once each. */
  lemma {:induction false} AdmitNovel(known: map<string, Content>, events: seq<NewEvent>)
    requires Admit(known, events).Some?
    ensures forall e :: e in Admit(known, events).value ==> e in events && e.id !in known
    ensures forall i, j :: 0 <= i < j < |Admit(known, events).value| ==>
                             Admit(known, events).value[i].id != Admit(known, events).value[j].id
    decreases events
  {
    if events != [] {
      var e := events[0];
      AdmitNovel(if e.id in known then known else known[e.id := ContentOf(e)], events[1..]);
    }
  }

  /** Every admitted batch's event was known with its own content, or is now admitted with it. */
  lemma {:induction false} AdmitCovers(known: map<string, Content>, events: seq<NewEvent>, e: NewEvent)
    requires Admit(known, events).Some? && e in events
    ensures (e.id in known && known[e.id] == ContentOf(e))
            || e in Admit(known, events).value
    decreases events
  {
    var head, rest := events[0], events[1..];
    if e == head {
    } else if head.id in known {
      AdmitCovers(known, rest, e);
    } else {
      AdmitCovers(known[head.id := ContentOf(head)], rest, e);
    }
  }

  lemma {:induction false} EventContentsKeys(events: seq<NewEvent>)
    ensures forall id :: id in EventContents(events) <==> exists e :: e in events && e.id == id
  {
    if events != [] {
      var n := |events| - 1;
      EventContentsKeys(events[..n]);
      assert events == events[..n] + [events[n]];
    }
  }

  /** Events that are already known with their own content admit nothing. */
  lemma {:induction false} AdmitKnown(known: map<string, Content>, events: seq<NewEvent>)
    requires forall e :: e in events ==> e.id in known && known[e.id] == ContentOf(e)
    ensures Admit(known, events) == Some([])
    decreases events
  {
    if events != [] {
      assert events[0] in events;
      AdmitKnown(known, events[1..]);
    }
  }

  /** Admitting against less knowledge first loses nothing: what survives is what matters. */
  lemma {:induction false} AdmitFilter(less: map<string, Content>, known: map<string, Content>, events: seq<NewEvent>)
    requires forall id :: id in less ==> id in known && known[id] == less[id]
    ensures Admit(less, events).None? ==> Admit(known, events).None?
    ensures Admit(less, events).Some? ==> Admit(known, events) == Admit(known, Admit(less, events).value)
    decreases events
  {
    if events != [] {
      var e := events[0];
      if e.id in less {
        AdmitFilter(less, known, events[1..]);
      } else if e.id !in known {
        AdmitFilter(less[e.id := ContentOf(e)], known[e.id := ContentOf(e)], events[1..]);
      } else if known[e.id] == ContentOf(e) {
        AdmitFilter(less[e.id := ContentOf(e)], known, events[1..]);
      }
    }
  }

  /** An id already known with other content is fatal wherever it stands in the batch. */
  lemma {:induction false} AdmitConflict(known: map<string, Content>, events: seq<NewEvent>, e: NewEvent)
    requires e in events && e.id in known && known[e.id] != ContentOf(e)
    ensures Admit(known, events).None?
    decreases events
  {
    if events[0] != e {
      var f := events[0];
      AdmitConflict(if f.id in known then known else known[f.id := ContentOf(f)], events[1..], e);
    }
  }

  /** Some id would stand for two contents. */
  ghost predicate Conflicting(known: map<string, Content>, events: seq<NewEvent>) {
    || (exists e :: e in events && Differs(known, e))
    || (exists e, f :: e in events && f in events && e.id == f.id && ContentOf(e) != ContentOf(f))
  }

  predicate Differs(known: map<string, Content>, e: NewEvent) {
    e.id in known && known[e.id] != ContentOf(e)
  }

  /** A batch is refused exactly when an id would stand for two contents. */
  lemma {:induction false} AdmitFails(known: map<string, Content>, events: seq<NewEvent>)
    ensures Admit(known, events).None? <==> Conflicting(known, events)
    decreases events
  {
    if events != [] {
      var e, rest := events[0], events[1..];
      var more := if e.id in known then known else known[e.id := ContentOf(e)];
      assert events == [e] + rest;
      if Differs(known, e) {
        assert e in events;
      } else {
        AdmitFails(more, rest);
        ConflictBehind(known, more, e, rest);
      }
    }
  }

  lemma ConflictBehind(known: map<string, Content>, more: map<string, Content>, e: NewEvent, rest: seq<NewEvent>)
    requires !Differs(known, e) && more == if e.id in known then known else known[e.id := ContentOf(e)]
    ensures Conflicting(known, [e] + rest) <==> Conflicting(more, rest)
  {
    var all := [e] + rest;
    if Conflicting(more, rest) {
      if f :| f in rest && Differs(more, f) {
        assert f in all && e in all;
        assert Differs(known, f) || (f.id == e.id && ContentOf(e) != ContentOf(f));
      } else {
        var f, g :| f in rest && g in rest && f.id == g.id && ContentOf(f) != ContentOf(g);
        assert f in all && g in all;
      }
    }
    if Conflicting(known, all) {
      ConflictAhead(known, more, e, rest);
    }
  }

  lemma ConflictAhead(known: map<string, Content>, more: map<string, Content>, e: NewEvent, rest: seq<NewEvent>)
    requires !Differs(known, e) && more == if e.id in known then known else known[e.id := ContentOf(e)]
    requires Conflicting(known, [e] + rest)
    ensures Conflicting(more, rest)
  {
    if f :| f in [e] + rest && Differs(known, f) {
      assert f in rest && Differs(more, f);
    } else {
      var f, g :| f in [e] + rest && g in [e] + rest && f.id == g.id && ContentOf(f) != ContentOf(g);
      if f == e {
        assert g in rest && Differs(more, g);
      } else if g == e {
        assert f in rest && Differs(more, f);
      }
    }
  }

  // -------------------------------------------------------------- peek_batch

  /** The affordable front is the longest one: exactly the fronts up to it fit the byte budget. */
  lemma {:induction false} AffordableIsLongest(rows: seq<Row>, maxBytes: int, m: nat)
    requires m <= |rows| && 0 <= maxBytes
    ensures m <= Affordable(rows, maxBytes) <==> PendingBytes(rows[..m]) <= maxBytes
  {
    if m > 0 {
      var size := |rows[0].payload|;
      FrontBytes(rows, m);
      if size <= maxBytes {
        AffordableIsLongest(rows[1..], maxBytes - size, m - 1);
      }
    }
  }

  lemma FrontBytes(rows: seq<Row>, m: nat)
    requires 0 < m <= |rows|
    ensures PendingBytes(rows[..m]) == |rows[0].payload| + PendingBytes(rows[1..][..m - 1])
  {
    assert rows[..m] == [rows[0]] + rows[1..][..m - 1];
    PendingBytesConcat([rows[0]], rows[1..][..m - 1]);
    assert [rows[0]][..0] == [];
  }

  /** What is peeked is the longest front within the row limit whose payloads fit the byte limit. */
  lemma PeekIsLongest(db: Database, maxRows: int, maxBytes: int, m: nat)
    requires m <= |db.pending| && 0 < maxBytes && PeekBatch(db, maxRows, maxBytes).Peek?
    ensures var rows := PeekBatch(db, maxRows, maxBytes).rows;
            && rows <= db.pending
            && (m <= |rows| <==> m <= maxRows && PendingBytes(db.pending[..m]) <= maxBytes)
  {
    var window := if |db.pending| <= maxRows then db.pending else db.pending[..maxRows];
    var n := Affordable(window, maxBytes);
    assert window[..n] == db.pending[..n];
    if m <= |window| {
      AffordableIsLongest(window, maxBytes, m);
      assert window[..m] == db.pending[..m];
    }
  }

  /** Peeking fails exactly on a limit that is not positive, or a first payload above the byte limit. */
  lemma PeekFailsExactly(db: Database, maxRows: int, maxBytes: int)
    ensures PeekBatch(db, maxRows, maxBytes).PeekFailed? <==>
            maxRows <= 0 || maxBytes <= 0 || (db.pending != [] && |db.pending[0].payload| > maxBytes)
  {
  }
}

/** What a clean trace means, said about its events alone: the retry contract, the order of shutdown,
    the failure latch, registration before every readiness check, and the shape of the wire. */
module TraceLaws {
  import opened Basics
  import opened Records
  import opened RecordStream
  import opened Trace
  import opened Waiters

  /** No rule was broken anywhere in the trace. */
  predicate Clean(trace: seq<Event>) {
    Observe(trace).ok
  }

  lemma BreaksForGood(m: Monitor, e: Event)
    ensures Observe1(m, e).ok <==> m.ok && Allowed(m, e)
  {
    hide Allowed, Effect;
  }

  lemma {:induction false} CleanEverywhere(trace: seq<Event>, k: nat)
    requires Clean(trace) && k < |trace|
    ensures Clean(trace[..k]) && Allowed(Observe(trace[..k]), trace[k])
    ensures Observe(trace[..k + 1]) == Observe1(Observe(trace[..k]), trace[k])
  {
    hide Observe1, Allowed;
    var before := trace[..|trace| - 1];
    BreaksForGood(Observe(before), trace[|trace| - 1]);
    if k < |before| {
      CleanEverywhere(before, k);
      assert before[..k] == trace[..k] && before[..k + 1] == trace[..k + 1];
    } else {
      assert trace[..k + 1] == trace && trace[..k] == before;
    }
  }

  lemma StepNeverForgets(m: Monitor, e: Event)
    requires Allowed(m, e)
    ensures var n := Observe1(m, e);
            (m.closing ==> n.closing) && (m.closed ==> n.closed) && (m.failed ==> n.failed)
  {
  }

  /** Closing, its acceptance and a failure are all for good. */
  lemma {:induction false} NeverForgets(trace: seq<Event>, i: nat, j: nat)
    requires Clean(trace) && i <= j <= |trace|
    ensures Observe(trace[..i]).closing ==> Observe(trace[..j]).closing
    ensures Observe(trace[..i]).closed ==> Observe(trace[..j]).closed
    ensures Observe(trace[..i]).failed ==> Observe(trace[..j]).failed
    decreases j
  {
    hide Observe, Observe1, Allowed;
    if i < j {
      NeverForgets(trace, i, j - 1);
      CleanEverywhere(trace, j - 1);
      StepNeverForgets(Observe(trace[..j - 1]), trace[j - 1]);
    }
  }

  /** An `SSL_write` that made no progress and is to be retried. */
  predicate Blocks(e: Event) {
    e.SslWrite? && e.n <= 0 && e.code.Wanted().Some?
  }

  lemma {:induction false} StaysBlocked(trace: seq<Event>, i: nat, j: nat)
    requires Clean(trace) && i < j <= |trace| && Blocks(trace[i])
    requires forall k | i < k < j && trace[k].SslWrite? :: Blocks(trace[k])
    ensures Observe(trace[..j]).blocked == Some(trace[i].data)
    decreases j
  {
    hide Observe, Observe1, Allowed;
    CleanEverywhere(trace, j - 1);
    if i + 1 < j {
      StaysBlocked(trace, i, j - 1);
    }
    BlockedAfter(Observe(trace[..j - 1]), trace[j - 1]);
  }

  /** Only an `SSL_write` starts, keeps or ends a blocked write. */
  lemma BlockedAfter(m: Monitor, e: Event)
    requires Allowed(m, e)
    ensures Blocks(e) ==> Observe1(m, e).blocked == Some(e.data) && (m.blocked.Some? ==> m.blocked == Some(e.data))
    ensures !e.SslWrite? ==> Observe1(m, e).blocked == m.blocked
    ensures e.SslWrite? && !Blocks(e) ==> Observe1(m, e).failed || Observe1(m, e).blocked.None?
  {
  }

  /** libssl's retry contract: once a write blocks, every later write on the stream carries the same
      plaintext until one of them completes or fails, and no close is attempted meanwhile. */
  lemma RetryContract(trace: seq<Event>, i: nat, j: nat)
    requires Clean(trace) && i < j < |trace| && Blocks(trace[i])
    requires forall k | i < k < j && trace[k].SslWrite? :: Blocks(trace[k])
    ensures trace[j].SslWrite? ==> trace[j].data == trace[i].data
    ensures !trace[j].SslShutdown? && !trace[j].KernelAlert?
  {
    hide Observe;
    StaysBlocked(trace, i, j);
    CleanEverywhere(trace, j);
  }

  predicate AttemptsClose(e: Event) {
    e.SslShutdown? || e.KernelAlert?
  }

  predicate AcceptsClose(e: Event) {
    (e.SslShutdown? && e.ret >= 0) || (e.KernelAlert? && e.sent == Ok(2))
  }

  /** No application data after the first attempt to close, and close_notify is accepted at most once. */
  lemma ShutdownOrder(trace: seq<Event>, i: nat, j: nat)
    requires Clean(trace) && i < j < |trace|
    ensures AttemptsClose(trace[i]) ==> !trace[j].SslWrite? && !trace[j].KernelWrite?
    ensures AcceptsClose(trace[i]) ==> !AttemptsClose(trace[j])
  {
    hide Observe;
    CleanEverywhere(trace, i);
    CleanEverywhere(trace, j);
    NeverForgets(trace, i + 1, j);
  }

  /** The `SSL_write` at `i` repeats one that blocked: no other came between. */
  predicate Retries(trace: seq<Event>, i: nat) {
    exists k | 0 <= k < i <= |trace| :: Blocks(trace[k]) && NoWrites(trace, k + 1, i)
  }

  predicate NoWrites(trace: seq<Event>, from: nat, to: nat)
    requires to <= |trace|
  {
    forall l | from <= l < to :: !trace[l].SslWrite?
  }

  /** libssl is in the middle of a write exactly when the latest `SSL_write` blocked. */
  lemma {:induction false} BlockedExactly(trace: seq<Event>)
    requires Clean(trace) && !Observe(trace).failed
    ensures Observe(trace).blocked.Some? <==> Retries(trace, |trace|)
  {
    hide Observe, Observe1, Allowed, Blocks;
    if trace == [] {
      AtTheStart();
    } else {
      var k := |trace| - 1;
      var before, e := trace[..k], trace[k];
      CleanEverywhere(trace, k);
      assert trace[..k + 1] == trace;
      NeverForgets(trace, k, k + 1);
      BlockedAfter(Observe(before), e);
      BlockedExactly(before);
      RetriesMore(before, e);
      assert before + [e] == trace;
    }
  }

  lemma AtTheStart()
    ensures Observe([]) == START
  {
  }

  lemma RetriesMore(trace: seq<Event>, e: Event)
    ensures !e.SslWrite? ==> (Retries(trace + [e], |trace| + 1) <==> Retries(trace, |trace|))
    ensures e.SslWrite? ==> (Retries(trace + [e], |trace| + 1) <==> Blocks(e))
  {
    hide Blocks;
    var n, more := |trace|, trace + [e];
    if Retries(trace, n) && !e.SslWrite? {
      var k :| 0 <= k < n && Blocks(trace[k]) && NoWrites(trace, k + 1, n);
      assert Blocks(more[k]) && NoWrites(more, k + 1, n + 1);
    }
    if Retries(more, n + 1) {
      var k :| 0 <= k < n + 1 && Blocks(more[k]) && NoWrites(more, k + 1, n + 1);
      assert e.SslWrite? ==> k == n by {
        if k < n { assert more[n] == e; }
      }
      if k < n {
        assert Blocks(trace[k]);
        forall l | k + 1 <= l < n ensures !trace[l].SslWrite? {
          assert more[l] == trace[l];
        }
        assert NoWrites(trace, k + 1, n);
      } else {
        OnlyWritesBlock(e);
      }
    }
    if e.SslWrite? && Blocks(e) {
      assert Blocks(more[n]) && NoWrites(more, n + 1, n + 1);
    }
  }

  lemma OnlyWritesBlock(e: Event)
    ensures Blocks(e) ==> e.SslWrite?
  {
  }

  /** Event `i` ends the write side: a fatal SSL write or shutdown, a short answer to a retry, a reactor
      that fails while a write or a close waits, an alert that cannot be sent, or a TCP shutdown that
      fails. */
  predicate EndsWriting(trace: seq<Event>, i: nat)
    requires i < |trace|
  {
    match trace[i]
    case SslWrite(data, n, code) =>
      if n <= 0 then code.Wanted().None? else n < |data| && Retries(trace, i)
    case SslShutdown(ret, code) => ret < 0 && code.Wanted().None?
    case Checked(_, readiness) => readiness.Broken? && i >= 2 && !trace[i - 2].SslRead?
    case KernelAlert(sent) => AlertFailed(sent)
    case KernelChecked(_, dir, readiness) =>
      readiness.Broken? && dir == WriteSide && i >= 1 && trace[i - 1].KernelAlert? && trace[i - 1].sent.Err?
    case TcpShutdown(done) => done.Err?
    case _ => false
  }

  /** What makes a usable write side fail, in the monitor's own terms. */
  predicate EndsIt(m: Monitor, e: Event) {
    match e
    case SslWrite(data, n, code) => if n <= 0 then code.Wanted().None? else n < |data| && m.blocked.Some?
    case SslShutdown(ret, code) => ret < 0 && code.Wanted().None?
    case Checked(_, readiness) => readiness.Broken? && m.phase.Waiting? && !m.phase.op.Reading?
    case KernelAlert(sent) => AlertFailed(sent)
    case KernelChecked(_, dir, readiness) => readiness.Broken? && dir == WriteSide && m.phase == AlertBlocked
    case TcpShutdown(done) => done.Err?
    case _ => false
  }

  lemma FailsExactly(m: Monitor, e: Event)
    requires Allowed(m, e)
    ensures !m.failed ==> (Observe1(m, e).failed <==> EndsIt(m, e))
  {
  }

  lemma PhaseIsFromLastEvents(trace: seq<Event>, i: nat)
    requires Clean(trace) && i < |trace|
    ensures Observe(trace[..i]).phase == AlertBlocked <==> i >= 1 && trace[i - 1].KernelAlert? && trace[i - 1].sent.Err?
    ensures trace[i].Checked? ==>
              && i >= 2 && Observe(trace[..i]).phase.Waiting?
              && (Observe(trace[..i]).phase.op.Reading? <==> trace[i - 2].SslRead?)
  {
    hide Observe, Observe1, Allowed;
    AtTheStart();
    CleanEverywhere(trace, i);
    CheckedNeedsWaiting(Observe(trace[..i]), trace[i]);
    assert trace[..0] == [];
    if i > 0 {
      CleanEverywhere(trace, i - 1);
      PhaseAfter(Observe(trace[..i - 1]), trace[i - 1]);
      if i > 1 {
        CleanEverywhere(trace, i - 2);
        PhaseAfter(Observe(trace[..i - 2]), trace[i - 2]);
      }
    }
  }

  lemma CheckedNeedsWaiting(m: Monitor, e: Event)
    requires Allowed(m, e)
    ensures e.Checked? ==> m.phase.Waiting?
  {
  }

  /** After an alert that blocked, a failure has not been announced yet. */
  lemma AlertBlockedIsLive(m: Monitor, e: Event)
    requires Allowed(m, e) && Observe1(m, e).phase == AlertBlocked
    ensures Observe1(m, e).failed ==> Observe1(m, e).unheard
  {
  }

  /** Those events and no others end the write side. */
  lemma EndsWritingExactly(trace: seq<Event>, i: nat)
    requires Clean(trace) && i < |trace|
    ensures EndsWriting(trace, i) <==> !Observe(trace[..i]).failed && Observe(trace[..i + 1]).failed
  {
    hide Observe, Observe1, Allowed, Retries, Blocks;
    var m, e := Observe(trace[..i]), trace[i];
    CleanEverywhere(trace, i);
    PhaseIsFromLastEvents(trace, i);
    FailsExactly(m, e);
    if m.phase == AlertBlocked {
      CleanEverywhere(trace, i - 1);
      AlertBlockedIsLive(Observe(trace[..i - 1]), trace[i - 1]);
      FailedMeansHeard(m, e);
    }
    if m.failed {
      NothingAfterFailure(m, e);
    } else {
      BlockedExactly(trace[..i]);
      RetriesPrefix(trace, i);
    }
  }

  lemma FailedMeansHeard(m: Monitor, e: Event)
    requires Allowed(m, e)
    ensures m.unheard ==> e == Notified(true)
  {
  }

  lemma RetriesPrefix(trace: seq<Event>, i: nat)
    requires i <= |trace|
    ensures Retries(trace[..i], i) <==> Retries(trace, i)
  {
    hide Blocks;
    var part := trace[..i];
    if Retries(trace, i) {
      var k :| 0 <= k < i && Blocks(trace[k]) && NoWrites(trace, k + 1, i);
      assert Blocks(part[k]) && NoWrites(part, k + 1, i);
    }
    if Retries(part, i) {
      var k :| 0 <= k < i && Blocks(part[k]) && NoWrites(part, k + 1, i);
      assert Blocks(trace[k]) && NoWrites(trace, k + 1, i);
    }
  }

  /** The failure latch: libssl is never called again, nothing more is written, and nobody registers. The
      very next thing is that everyone who waits is woken, so nobody waits from then on. */
  lemma FailureLatch(trace: seq<Event>, i: nat, j: nat)
    requires Clean(trace) && i < j < |trace| && EndsWriting(trace, i)
    ensures !trace[j].SslWrite? && !trace[j].SslRead? && !trace[j].SslShutdown? && !trace[j].Registered?
    ensures !trace[j].KernelWrite? && !trace[j].KernelAlert? && !trace[j].TcpShutdown?
    ensures trace[i + 1] == Notified(true)
    ensures var m, n := Observe(trace[..i]), Observe(trace[..i + 2]);
            n.slots == NOBODY && n.woken == m.woken + Occupied(m.slots)
  {
    hide Observe, Observe1, Allowed, EndsWriting;
    EndsWritingExactly(trace, i);
    CleanEverywhere(trace, i);
    CleanEverywhere(trace, i + 1);
    CleanEverywhere(trace, j);
    NeverForgets(trace, i + 1, j);
    FailureStep(Observe(trace[..i]), trace[i], trace[i + 1]);
    NothingAfterFailure(Observe(trace[..j]), trace[j]);
  }

  lemma FailureStep(m: Monitor, e: Event, next: Event)
    requires Allowed(m, e) && !m.failed && Observe1(m, e).failed && Allowed(Observe1(m, e), next)
    ensures next == Notified(true)
    ensures var n := Observe1(Observe1(m, e), next); n.slots == NOBODY && n.woken == m.woken + Occupied(m.slots)
  {
    hide Occupied;
  }

  lemma NothingAfterFailure(m: Monitor, e: Event)
    requires Allowed(m, e) && m.failed
    ensures !e.SslWrite? && !e.SslRead? && !e.SslShutdown? && !e.Registered? && !e.Checked?
    ensures !e.KernelWrite? && !e.KernelAlert? && !e.TcpShutdown?
  {
  }

  lemma CauseAfter(m: Monitor, e: Event)
    requires Allowed(m, e)
    ensures var n := Observe1(m, e);
            && (n.failed && !m.failed ==> ErrorOf(e).Some? && n.cause == ErrorOf(e))
            && (n.failed == m.failed ==> n.cause == m.cause)
  {
  }

  /** A failed trace has one event that ended the write side, and the monitor's cause is its error. */
  lemma {:induction false} CauseIsOfTheEvent(trace: seq<Event>) returns (i: nat)
    requires Clean(trace) && Observe(trace).failed
    ensures i < |trace| && EndsWriting(trace, i)
    ensures ErrorOf(trace[i]).Some? && Observe(trace).cause == ErrorOf(trace[i])
  {
    hide Observe, Observe1, Allowed, EndsWriting;
    AtTheStart();
    var k := |trace| - 1;
    CleanEverywhere(trace, k);
    NeverForgets(trace, k, k + 1);
    assert trace[..k + 1] == trace;
    CauseAfter(Observe(trace[..k]), trace[k]);
    EndsWritingExactly(trace, k);
    if Observe(trace[..k]).failed {
      i := CauseIsOfTheEvent(trace[..k]);
      EndsWritingExactly(trace[..k], i);
      EndsWritingExactly(trace, i);
      assert trace[..k][..i] == trace[..i] && trace[..k][..i + 1] == trace[..i + 1];
    } else {
      i := k;
    }
  }

  // Who waits, over any stretch of a trace.

  predicate NoneRegistered(trace: seq<Event>, from: nat, to: nat, reader: bool)
    requires to <= |trace|
  {
    forall l | from <= l < to :: !(trace[l].Registered? && trace[l].reader == reader)
  }

  /** The waker of this half is still in its slot, or was woken in between. */
  predicate Accounted(m: Monitor, n: Monitor, reader: bool) {
    && m.woken <= n.woken
    && (m.slots[SlotOf(reader)].Some? ==>
          n.slots[SlotOf(reader)] == m.slots[SlotOf(reader)]
          || m.slots[SlotOf(reader)].value in n.woken[|m.woken|..])
  }

  /** Only a registration and a notify touch the slots. */
  lemma SlotsAfter(m: Monitor, e: Event)
    requires Allowed(m, e)
    ensures var n := Observe1(m, e);
            match e
            case Registered(reader, waker) => n.slots == m.slots[SlotOf(reader) := Some(waker)] && n.woken == m.woken
            case Notified(_) => n.slots == NOBODY && n.woken == m.woken + Occupied(m.slots)
            case _ => n.slots == m.slots && n.woken == m.woken
  {
    hide Occupied;
  }

  lemma AccountedStep(m: Monitor, e: Event, reader: bool)
    requires Allowed(m, e)
    ensures m.woken <= Observe1(m, e).woken
    ensures !(e.Registered? && e.reader == reader) ==> Accounted(m, Observe1(m, e), reader)
  {
    hide Occupied, Observe1, Allowed;
    SlotsAfter(m, e);
    if e.Notified? && m.slots[SlotOf(reader)].Some? {
      OccupantsAreIn(m.slots, SlotOf(reader));
      assert Observe1(m, e).woken[|m.woken|..] == Occupied(m.slots);
    }
  }

  lemma AccountedThen(l: Monitor, m: Monitor, n: Monitor, reader: bool)
    requires Accounted(l, m, reader) && Accounted(m, n, reader)
    ensures Accounted(l, n, reader)
  {
    assert n.woken[|l.woken|..] == m.woken[|l.woken|..] + n.woken[|m.woken|..];
  }

  /** A waker leaves its slot only by being woken, or because its own half registers again: between any
      two points of a clean trace. */
  lemma {:induction false} LeavesOnlyWoken(trace: seq<Event>, i: nat, j: nat, reader: bool)
    requires Clean(trace) && i <= j <= |trace| && NoneRegistered(trace, i, j, reader)
    ensures Accounted(Observe(trace[..i]), Observe(trace[..j]), reader)
    decreases j
  {
    hide Observe, Observe1, Allowed;
    if i < j {
      hide Accounted;
      LeavesOnlyWoken(trace, i, j - 1, reader);
      CleanEverywhere(trace, j - 1);
      AccountedStep(Observe(trace[..j - 1]), trace[j - 1], reader);
      AccountedThen(Observe(trace[..i]), Observe(trace[..j - 1]), Observe(trace[..j]), reader);
    }
  }

  /** The direction an SSL call asked to wait for. */
  function WantedBy(e: Event): Option<Direction> {
    match e
    case SslWrite(_, n, code) => if n <= 0 then code.Wanted() else None
    case SslRead(_, got, code) => if got == [] then code.Wanted() else None
    case SslShutdown(ret, code) => if ret < 0 then code.Wanted() else None
    case _ => None
  }

  lemma PhaseAfter(m: Monitor, e: Event)
    requires Allowed(m, e)
    ensures Observe1(m, e).phase.Wanting? ==>
              && WantedBy(e) == Some(Observe1(m, e).phase.dir)
              && (Observe1(m, e).phase.op.Reading? <==> e.SslRead?)
    ensures Observe1(m, e).phase.Waiting? ==>
              e.Registered? && m.phase.Wanting? && m.phase == Wanting(Observe1(m, e).phase.op, Observe1(m, e).phase.dir)
    ensures Observe1(m, e).phase == AlertBlocked ==> e.KernelAlert? && e.sent.Err?
    ensures e.KernelAlert? && e.sent.Err? ==> Observe1(m, e).phase == AlertBlocked
  {
  }

  /** Every readiness check comes straight after a registration, itself straight after an SSL call that
      asked for that direction. So a poll never parks without having retried the SSL call since the
      last event, and never before its waker is in the slot. */
  lemma RegisteredBeforeChecked(trace: seq<Event>, i: nat)
    requires Clean(trace) && i < |trace| && trace[i].Checked?
    ensures i >= 2 && trace[i - 1].Registered? && WantedBy(trace[i - 2]) == Some(trace[i].dir)
  {
    hide Observe1;
    CleanEverywhere(trace, i);
    assert i > 0;
    CleanEverywhere(trace, i - 1);
    PhaseAfter(Observe(trace[..i - 1]), trace[i - 1]);
    assert i > 1;
    CleanEverywhere(trace, i - 2);
    PhaseAfter(Observe(trace[..i - 2]), trace[i - 2]);
  }

  lemma {:induction false} AppendRecord(records: seq<Record>, r: Record)
    requires FirstControl(records).None?
    ensures AppBytes(records + [r]) == AppBytes(records) + if r.kind == APPLICATION_DATA then r.payload else []
    ensures FirstControl(records + [r]) == if r.kind == APPLICATION_DATA then None else Some(r)
  {
    if records != [] {
      assert (records + [r])[1..] == records[1..] + [r];
      AppendRecord(records[1..], r);
    }
  }

  /** The wire carries the completed plaintext, and then at most one alert. A close_notify is on the
      wire exactly when the close was accepted. */
  ghost predicate WireShape(m: Monitor) {
    && AppBytes(m.wire) == m.committed
    && (FirstControl(m.wire).Some? ==> m.closing && (m.closed || m.failed))
    && (m.closed <==> FirstControl(m.wire).Some? && IsCloseNotify(FirstControl(m.wire).value))
  }

  /** A write that got through adds one data record, before any alert. */
  lemma WireStepData(m: Monitor, e: Event)
    requires Allowed(m, e) && WireShape(m) && (e.SslWrite? || e.KernelWrite?)
    ensures WireShape(Observe1(m, e))
  {
    hide AppBytes, FirstControl, IsCloseNotify;
    if e.SslWrite? && e.n > 0 {
      AppendRecord(m.wire, Record(APPLICATION_DATA, e.data[..e.n]));
    } else if e.KernelWrite? && e.written.Ok? {
      AppendRecord(m.wire, Record(APPLICATION_DATA, e.data[..e.written.value]));
    }
  }

  /** A close adds at most one alert, and the two bytes of a close_notify only if it was accepted. */
  lemma WireStepClose(m: Monitor, e: Event)
    requires Allowed(m, e) && WireShape(m) && AttemptsClose(e)
    ensures WireShape(Observe1(m, e))
  {
    hide AppBytes, FirstControl, IsCloseNotify, CloseNotifySent;
    var sent := if e.SslShutdown? then (if e.ret >= 0 then 2 else 0) else if e.sent.Ok? then e.sent.value else 0;
    AlertRecord(m.wire, sent);
    AlertRecord(m.wire, 2);
    if sent > 0 {
      AppendRecord(m.wire, CloseNotifySent(sent)[0]);
    }
  }

  lemma AlertRecord(wire: seq<Record>, sent: nat)
    requires sent <= 2
    ensures sent == 0 ==> wire + CloseNotifySent(sent) == wire
    ensures sent > 0 ==>
              && CloseNotifySent(sent) == [CloseNotifySent(sent)[0]] && CloseNotifySent(sent)[0].kind == ALERT
              && (IsCloseNotify(CloseNotifySent(sent)[0]) <==> sent == 2)
  {
  }

  lemma WireStep(m: Monitor, e: Event)
    requires Allowed(m, e) && WireShape(m)
    ensures WireShape(Observe1(m, e))
  {
    hide AppBytes, FirstControl, IsCloseNotify;
    if e.SslWrite? || e.KernelWrite? {
      WireStepData(m, e);
    } else if AttemptsClose(e) {
      WireStepClose(m, e);
    }
  }

  lemma {:induction false} WireAlways(trace: seq<Event>)
    requires Clean(trace)
    ensures WireShape(Observe(trace))
  {
    if trace != [] {
      var k := |trace| - 1;
      CleanEverywhere(trace, k);
      assert trace[..k + 1] == trace;
      WireAlways(trace[..k]);
      WireStep(Observe(trace[..k]), trace[k]);
    }
  }
}

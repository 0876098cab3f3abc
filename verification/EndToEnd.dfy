/** One side writes, the other side reads through the kernel: the two halves of the adapter composed. */
module EndToEnd {
  import opened Basics
  import opened RecordStream
  import opened StreamLaws
  import opened StreamRuns
  import opened TlsStream
  import opened Trace
  import opened TraceLaws

  /** The reader's first `c` inputs are a prefix of some way to serve the writer's wire; if there are
      more, the connection broke there. */
  ghost predicate FedFrom(inputs: seq<Input>, served: seq<Input>, writer: Stream, k: nat, m: nat, c: nat) {
    && Serves(served, Observe(writer.trace).wire, k, m)
    && c <= |inputs| && inputs[..c] <= served
    && (c < |inputs| ==> Breaks(inputs[c]))
  }

  /** Whatever polls the writer went through, however the kernel cut and coalesced its records, and
      wherever reading stopped or the connection broke: the bytes delivered are a prefix of the bytes
      acknowledged. A clean end of stream means they are all of them, and that the writer did close. */
  lemma DeliveredIsAccepted(writer: Stream, inputs: seq<Input>, served: seq<Input>, k: nat, m: nat, c: nat)
    requires Lawful(writer) && FedFrom(inputs, served, writer, k, m, c)
    ensures Delivered(INITIAL, inputs) <= writer.accepted
    ensures After(INITIAL, inputs).terminal == Some(RecordStream.Closed) ==>
              Delivered(INITIAL, inputs) == writer.accepted && writer.shutdown == StreamLaws.Closed
  {
    hide Observe, After, Delivered, Serves;
    WireAlways(writer.trace);
    FragmentationIndependence(served, Observe(writer.trace).wire, k, m);
    PrefixOfRun(inputs[..c], served);
    if c < |inputs| {
      BreakIsNotEof(inputs, c);
    } else {
      assert inputs[..c] == inputs;
    }
  }

  /** Nothing is lost on the way: once everything served has been read, a flushed writer's bytes have
      all arrived, and a writer that closed has been seen to close. */
  lemma FlushedIsDelivered(writer: Stream, served: seq<Input>, k: nat, m: nat)
    requires Lawful(writer) && Serves(served, Observe(writer.trace).wire, k, m)
    ensures Delivered(INITIAL, served) == Observe(writer.trace).committed
    ensures writer.pending == [] ==> Delivered(INITIAL, served) == writer.accepted
    ensures After(INITIAL, served).terminal == Some(RecordStream.Closed) <==> writer.shutdown == StreamLaws.Closed
  {
    hide Observe, After, Delivered, Serves;
    WireAlways(writer.trace);
    FragmentationIndependence(served, Observe(writer.trace).wire, k, m);
  }

  /** A connection that breaks before close_notify was sent, or before it was read, never ends cleanly.
      A reader still live reports `UnexpectedEof` for a bare FIN and the socket's own error otherwise. */
  lemma CutConnectionIsNoticed(writer: Stream, inputs: seq<Input>, served: seq<Input>, k: nat, m: nat, c: nat)
    requires Lawful(writer) && FedFrom(inputs, served, writer, k, m, c) && c < |inputs|
    requires writer.shutdown != StreamLaws.Closed || After(INITIAL, inputs[..c]).terminal.None?
    ensures var s := After(INITIAL, inputs);
            && s.terminal.Some? && s.terminal.value.Failed?
            && (After(INITIAL, inputs[..c]).terminal.None? ==>
                  s.terminal.value.error.Kind() == BreakKind(inputs[c]))
  {
    hide Observe, After, Delivered, Serves;
    BreakIsNotEof(inputs, c);
    DeliveredIsAccepted(writer, inputs, served, k, m, c);
  }

  /** What the caller on the reading side has in hand, against what the callers on the writing side were
      told: never anything else, and all of it after a clean end of stream. */
  ghost predicate Faithful(got: seq<byte>, acked: seq<byte>, end: Option<Terminal>) {
    got <= acked && (end == Some(RecordStream.Closed) ==> got == acked)
  }

  /** Every wire can be served, so none of this is empty: some reader gets everything a lawful writer has
      completed, one whole record at a time, and sees a close exactly if the writer closed. */
  lemma SomeReaderGetsItAll(writer: Stream) returns (served: seq<Input>, k: nat, m: nat)
    requires Lawful(writer)
    ensures FedFrom(served, served, writer, k, m, |served|)
    ensures Delivered(INITIAL, served) == Observe(writer.trace).committed
    ensures After(INITIAL, served).terminal == Some(RecordStream.Closed) <==> writer.shutdown == StreamLaws.Closed
  {
    hide Observe, After, Delivered, Serves;
    served, k, m := WholeRecordsServe(Observe(writer.trace).wire);
    FlushedIsDelivered(writer, served, k, m);
    assert served[..|served|] == served;
  }

  /** `check_close_notify_write` calls a send a success exactly when the peer, however it is served what
      went out, sees an authenticated close. */
  lemma CheckedSendIsWhatThePeerSees(sent: nat, inputs: seq<Input>, k: nat, m: nat)
    requires sent <= 2 && Serves(inputs, CloseNotifySent(sent), k, m)
    ensures CheckCloseNotifyWrite(sent).Ok? <==> After(INITIAL, inputs).terminal == Some(RecordStream.Closed)
    ensures sent == 1 ==> After(INITIAL, inputs).terminal.Some? && After(INITIAL, inputs).terminal.value.Failed?
    ensures Delivered(INITIAL, inputs) == []
  {
    hide After, Delivered, Serves;
    FragmentationIndependence(inputs, CloseNotifySent(sent), k, m);
    AlertRecord([], sent);
  }

  /** Two live streams, any polls on either side. If the kernel of the reading side was fed from the
      writing side's wire, in whatever pieces, then what was received is what was acknowledged. */
  method Conversation(writer: TlsStream, reader: TlsStream, sends: seq<Command>, receives: seq<Command>)
    returns (sent: seq<Reply>, got: seq<Reply>)
    requires writer.Valid() && writer.accepted == []
    requires reader.Valid() && reader.ktlsActive && reader.ktlsReader.inputs == []
    requires writer != reader && writer.io != reader.io
    requires writer.ktlsReader != reader.ktlsReader && writer.ktlsReader.alert != reader.ktlsReader.alert
    requires writer.waiters == null || writer.waiters != reader.waiters
    modifies writer`pendingWrite, writer`waiters, writer`writeError, writer`accepted, writer`received, writer`shutdown
    modifies writer.io, writer.waiters, writer.ktlsReader, writer.ktlsReader.alert
    modifies reader`pendingWrite, reader`waiters, reader`writeError, reader`accepted, reader`received, reader`shutdown
    modifies reader.io, reader.waiters, reader.ktlsReader, reader.ktlsReader.alert
    ensures writer.Valid() && reader.Valid()
    ensures forall served, k, m, c | FedFrom(reader.ktlsReader.inputs, served, writer.View(), k, m, c) ::
              Faithful(ReceivedBytes(got), Acked(sent), reader.ktlsReader.terminal)
  {
    hide Lawful, Observe, After, Delivered, Serves, Marked, NobodyForgotten;
    ghost var sentMarks, gotMarks;
    sent, sentMarks := Run(writer, sends);
    FeedNone(INITIAL);
    got, gotMarks := Run(reader, receives);
    assert [] + ReceivedBytes(got) == ReceivedBytes(got) && [] + Acked(sent) == Acked(sent);
    forall served, k, m, c | FedFrom(reader.ktlsReader.inputs, served, writer.View(), k, m, c)
      ensures Faithful(ReceivedBytes(got), Acked(sent), reader.ktlsReader.terminal)
    {
      DeliveredIsAccepted(writer.View(), reader.ktlsReader.inputs, served, k, m, c);
    }
  }
}

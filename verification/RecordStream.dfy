/** The kTLS receive state as a value, and its refinement of a one-record-at-a-time reader. */
module RecordStream {
  import opened Basics
  import opened Records

  datatype Terminal = Closed | Failed(error: IoError)

  /** `alert` holds the bytes of a partially received alert while the reader is live. */
  datatype ReaderState = ReaderState(alert: seq<byte>, terminal: Option<Terminal>)

  const INITIAL := ReaderState([], None)

  datatype Outcome = Data(n: nat) | More | Eof

  /** What reaches the reader: a fragment returned by `recvmsg`, or a socket error. */
  datatype Input =
    | Fragment(kind: Option<byte>, flags: Flags, payload: seq<byte>)
    | SocketError(error: IoError)

  const PLAIN := Flags(false, false, false)

  /** `recvmsg` returning zero bytes with no metadata: the peer's TCP FIN. */
  const TRANSPORT_CLOSE := Fragment(None, PLAIN, [])

  const HANDSHAKE_UNSUPPORTED := "kTLS handshake controls (including NewSessionTicket and KeyUpdate) are unsupported"

  function FailedWith(e: IoError): ReaderState {
    ReaderState([], Some(Failed(Duplicate(e))))
  }

  /** How one fragment is judged while the reader is live: the new state, or the fatal error. */
  function Judge(s: ReaderState, kind: Option<byte>, flags: Flags, payload: seq<byte>): Result<(ReaderState, Outcome), IoError> {
    if flags.ctrunc || flags.trunc then Err(BadData("truncated kTLS recvmsg payload or ancillary data"))
    else if payload == [] then
      if kind == Some(APPLICATION_DATA) && s.alert == [] then Ok((s, More))
      else if kind.Some? || flags.eor then Err(BadData("empty kTLS record is unsupported"))
      else Err(Custom(UnexpectedEof, "kTLS peer closed without close_notify", 0))
    else
      var t := if kind.Some? then kind.value else APPLICATION_DATA;
      if s.alert != [] && t != ALERT then Err(BadData("kTLS alert interrupted by another record type"))
      else if t == APPLICATION_DATA then Ok((s, Data(|payload|)))
      else if t == ALERT then JudgeAlert(s, flags, payload)
      else if t == HANDSHAKE then Err(Custom(Unsupported, HANDSHAKE_UNSUPPORTED, 0))
      else Err(BadData("unsupported kTLS record type"))
  }

  function JudgeAlert(s: ReaderState, flags: Flags, payload: seq<byte>): Result<(ReaderState, Outcome), IoError> {
    var held := s.alert + payload;
    if |held| > 2 then Err(BadData("oversized kTLS alert"))
    else if !flags.eor then
      if |held| == 2 then Err(BadData("kTLS alert exceeds two bytes without end-of-record"))
      else Ok((s.(alert := held), More))
    else if |held| != 2 then Err(BadData("truncated kTLS alert at end-of-record"))
    else if (held[0] == 1 || held[0] == 2) && held[1] == 0 then
      Ok((ReaderState([], Some(Closed)), Eof))
    else Err(BadData("invalid or non-close kTLS alert"))
  }

  /** What a judgement says about the state it leads to. */
  lemma JudgeFacts(s: ReaderState, kind: Option<byte>, flags: Flags, payload: seq<byte>)
    requires |s.alert| <= 1 && s.terminal.None?
    ensures var j := Judge(s, kind, flags, payload);
      j.Ok? ==>
        && (j.value.1.Data? ==> j.value.1.n == |payload| && payload != [] && j.value.0 == s)
        && (j.value.1.More? ==> j.value.0.terminal.None? && |j.value.0.alert| <= 1)
        && (j.value.1.Eof? <==> j.value.0.terminal == Some(Closed))
        && (j.value.0.terminal.Some? ==> j.value.0 == ReaderState([], Some(Closed)))
  {
  }

  /** The effect of one input on the receive state; a terminal state absorbs everything. */
  function Step(s: ReaderState, i: Input): ReaderState {
    if s.terminal.Some? then s
    else
      match i
      case SocketError(e) => FailedWith(e)
      case Fragment(kind, flags, payload) =>
        match Judge(s, kind, flags, payload)
        case Ok((t, _)) => t
        case Err(e) => FailedWith(e)
  }

  /** The bytes one input makes visible to the caller. */
  function Exposed(s: ReaderState, i: Input): seq<byte> {
    if s.terminal.None? && i.Fragment? && Judge(s, i.kind, i.flags, i.payload).Ok?
       && Judge(s, i.kind, i.flags, i.payload).value.1.Data?
    then i.payload else []
  }

  function After(s: ReaderState, inputs: seq<Input>): ReaderState {
    if inputs == [] then s
    else Step(After(s, inputs[..|inputs| - 1]), inputs[|inputs| - 1])
  }

  function Delivered(s: ReaderState, inputs: seq<Input>): seq<byte> {
    if inputs == [] then []
    else
      var before := inputs[..|inputs| - 1];
      Delivered(s, before) + Exposed(After(s, before), inputs[|inputs| - 1])
  }

  lemma FeedOne(s: ReaderState, inputs: seq<Input>, i: Input)
    ensures After(s, inputs + [i]) == Step(After(s, inputs), i)
    ensures Delivered(s, inputs + [i]) == Delivered(s, inputs) + Exposed(After(s, inputs), i)
  {
    hide Step, Exposed;
    assert (inputs + [i])[..|inputs|] == inputs;
  }

  lemma {:induction false} FeedMore(s: ReaderState, a: seq<Input>, b: seq<Input>)
    ensures After(s, a + b) == After(After(s, a), b)
    ensures Delivered(s, a + b) == Delivered(s, a) + Delivered(After(s, a), b)
    decreases |b|
  {
    hide Step, Exposed;
    if b == [] {
      assert a + b == a;
    } else {
      var before, last := b[..|b| - 1], b[|b| - 1];
      assert a + b == (a + before) + [last];
      FeedMore(s, a, before);
      FeedOne(s, a + before, last);
      var d, e, f := Delivered(s, a), Delivered(After(s, a), before), Exposed(After(s, a + before), last);
      assert (d + e) + f == d + (e + f);
    }
  }

  /** A terminal state is final: no later input changes it or makes a byte visible. */
  lemma {:induction false} TerminalIsSticky(s: ReaderState, inputs: seq<Input>)
    requires s.terminal.Some?
    ensures After(s, inputs) == s
    ensures Delivered(s, inputs) == []
  {
    if inputs != [] {
      TerminalIsSticky(s, inputs[..|inputs| - 1]);
    }
  }

  /** A live reader never holds more than one alert byte, so the room left in its two-byte buffer is
      never negative and never zero. */
  predicate Live(s: ReaderState) {
    s.terminal.None? ==> |s.alert| <= 1
  }

  lemma {:induction false} LiveHoldsAtMostOneByte(inputs: seq<Input>)
    ensures Live(After(INITIAL, inputs))
  {
    if inputs != [] {
      LiveHoldsAtMostOneByte(inputs[..|inputs| - 1]);
    }
  }

  /** A fragment that leaves a live reader live: application data outside an alert, or the first byte of
      an alert that goes on. */
  predicate Tolerated(s: ReaderState, i: Input) {
    && i.Fragment? && !i.flags.trunc && !i.flags.ctrunc
    && if s.alert == [] && AppPiece(i) then true
       else i.kind == Some(ALERT) && !i.flags.eor && s.alert == [] && |i.payload| == 1
  }

  /** A fragment that completes an authenticated close_notify. */
  predicate Closes(s: ReaderState, i: Input) {
    && i.Fragment? && !i.flags.trunc && !i.flags.ctrunc && i.flags.eor
    && i.kind == Some(ALERT) && i.payload != []
    && IsCloseNotify(Record(ALERT, s.alert + i.payload))
  }

  /** Exactly what a live reader does with any input whatsoever: what keeps it going, what ends the
      stream cleanly, what becomes visible, and which error everything else is. */
  lemma StepExact(s: ReaderState, i: Input)
    requires s.terminal.None? && |s.alert| <= 1
    ensures Step(s, i).terminal.None? <==> Tolerated(s, i)
    ensures Step(s, i).terminal == Some(Closed) <==> Closes(s, i)
    ensures Exposed(s, i) == if Tolerated(s, i) && AppPiece(i) then i.payload else []
    ensures !Tolerated(s, i) && !Closes(s, i) ==>
              var t := Step(s, i).terminal;
              && t.Some? && t.value.Failed?
              && t.value.error.Kind() ==
                   if Breaks(i) then BreakKind(i)
                   else if i.kind == Some(HANDSHAKE) && i.payload != [] && s.alert == []
                           && !i.flags.trunc && !i.flags.ctrunc then Unsupported
                   else InvalidData
  {
    if i.Fragment? && i.kind == Some(ALERT) && i.payload != [] {
      assert |s.alert + i.payload| == |s.alert| + |i.payload|;
    }
  }

  // The reference reader works on whole records.

  /** Application bytes up to the first control record. */
  function AppBytes(records: seq<Record>): seq<byte> {
    if records == [] || records[0].kind != APPLICATION_DATA then []
    else records[0].payload + AppBytes(records[1..])
  }

  function FirstControl(records: seq<Record>): Option<Record> {
    if records == [] then None
    else if records[0].kind != APPLICATION_DATA then Some(records[0])
    else FirstControl(records[1..])
  }

  predicate IsCloseNotify(r: Record) {
    r.kind == ALERT && |r.payload| == 2 && (r.payload[0] == 1 || r.payload[0] == 2) && r.payload[1] == 0
  }

  /** The error kind a control record other than close_notify must produce. */
  function RejectionKind(r: Record): ErrorKind {
    if r.kind == HANDSHAKE && r.payload != [] then Unsupported else InvalidData
  }

  predicate Concludes(s: ReaderState, control: Option<Record>) {
    match control
    case None => s.terminal.None? && s.alert == []
    case Some(r) =>
      if IsCloseNotify(r) then s.terminal == Some(Closed)
      else s.terminal.Some? && s.terminal.value.Failed? && s.terminal.value.error.Kind() == RejectionKind(r)
  }

  // How the kernel may cut a record sequence.

  function Payloads(parts: seq<Input>): seq<byte> {
    if parts == [] then []
    else (if parts[0].Fragment? then parts[0].payload else []) + Payloads(parts[1..])
  }

  /** Any stretch of application data, inside a record or spanning several. The type message may be
      missing unless the stretch is empty; the end-of-record flag may take either value. */
  predicate AppPiece(i: Input) {
    && i.Fragment? && !i.flags.trunc && !i.flags.ctrunc
    && (i.kind == Some(APPLICATION_DATA) || (i.kind.None? && i.payload != []))
  }

  /** `parts` is control record `r`, cut anywhere, with end-of-record on the last piece only. */
  predicate ControlPieces(parts: seq<Input>, r: Record) {
    && |parts| > 0
    && Payloads(parts) == r.payload
    && (forall j | 0 <= j < |parts| ::
          && parts[j].Fragment? && parts[j].kind == Some(r.kind)
          && parts[j].flags == Flags(j == |parts| - 1, false, false)
          && (parts[j].payload != [] || |parts| == 1))
  }

  /** The inputs are the records' application bytes in pieces, then the first control record in
      pieces, then anything at all. `k` and `m` are the two piece counts. */
  predicate Serves(inputs: seq<Input>, records: seq<Record>, k: nat, m: nat) {
    && k + m <= |inputs|
    && (forall j | 0 <= j < k :: AppPiece(inputs[j]))
    && Payloads(inputs[..k]) == AppBytes(records)
    && match FirstControl(records)
       case None => k == |inputs|
       case Some(r) => ControlPieces(inputs[k..k + m], r)
  }

  lemma {:induction false} PayloadsAppend(a: seq<Input>, b: seq<Input>)
    ensures Payloads(a + b) == Payloads(a) + Payloads(b)
  {
    if a == [] {
      assert a + b == b;
    } else {
      assert (a + b)[1..] == a[1..] + b;
      PayloadsAppend(a[1..], b);
    }
  }

  /** Application data passes straight through, whatever the cuts. */
  lemma {:induction false} AppPiecesPassThrough(parts: seq<Input>)
    requires forall j | 0 <= j < |parts| :: AppPiece(parts[j])
    ensures After(INITIAL, parts) == INITIAL
    ensures Delivered(INITIAL, parts) == Payloads(parts)
  {
    if parts != [] {
      hide Step, Exposed, After, Delivered, Payloads, AppPiece;
      var before, last := parts[..|parts| - 1], parts[|parts| - 1];
      AppPiecesPassThrough(before);
      PayloadsAppend(before, [last]);
      assert parts == before + [last];
      FeedOne(INITIAL, before, last);
      AppPiecePassesThrough(last);
    }
  }

  lemma AppPiecePassesThrough(i: Input)
    requires AppPiece(i)
    ensures Step(INITIAL, i) == INITIAL && Exposed(INITIAL, i) == Payloads([i])
  {
    assert Payloads([i]) == i.payload + Payloads([]) == i.payload;
  }

  /** The first piece, and whether more is to come, read off a cut control record. */
  lemma PiecesUncons(parts: seq<Input>, r: Record)
    requires ControlPieces(parts, r)
    ensures parts[0].payload + Payloads(parts[1..]) == r.payload
    ensures |parts| == 1 ==> Payloads(parts[1..]) == []
    ensures |parts| > 1 ==> Payloads(parts[1..]) != [] && Payloads(parts[1..]) == parts[1].payload + Payloads(parts[2..])
    ensures |parts| > 2 ==> Payloads(parts[2..]) != []
  {
    if |parts| > 1 {
      assert parts[1..][0] == parts[1] && parts[1..][1..] == parts[2..];
    }
    if |parts| > 2 {
      assert parts[2..][0] == parts[2];
    }
  }

  /** The first piece of a control record settles the matter, except for a lone alert byte that is not
      yet at the end of its record. */
  lemma FirstPiece(i: Input, r: Record, rest: seq<byte>)
    requires r.kind != APPLICATION_DATA
    requires i.Fragment? && i.kind == Some(r.kind) && i.flags == Flags(rest == [], false, false)
    requires i.payload + rest == r.payload && (i.payload != [] || rest == [])
    ensures Exposed(INITIAL, i) == []
    ensures if r.kind == ALERT && |i.payload| == 1 && rest != []
            then Step(INITIAL, i) == ReaderState(i.payload, None)
            else Concludes(Step(INITIAL, i), Some(r))
  {
    assert INITIAL.alert + i.payload == i.payload;
    if rest == [] {
      assert i.payload == r.payload;
    } else {
      assert |r.payload| == |i.payload| + |rest|;
    }
  }

  /** After a lone alert byte the second piece always settles the matter. */
  lemma SecondPiece(a: byte, i: Input, r: Record, rest: seq<byte>)
    requires r.kind == ALERT
    requires i.Fragment? && i.kind == Some(ALERT) && i.flags == Flags(rest == [], false, false)
    requires [a] + i.payload + rest == r.payload && i.payload != []
    ensures Exposed(ReaderState([a], None), i) == []
    ensures Concludes(Step(ReaderState([a], None), i), Some(r))
  {
    if rest == [] {
      assert [a] + i.payload == r.payload;
    } else {
      assert |r.payload| == 1 + |i.payload| + |rest|;
    }
  }

  lemma FeedNone(s: ReaderState)
    ensures After(s, []) == s && Delivered(s, []) == []
  {
  }

  lemma FeedFirst(s: ReaderState, parts: seq<Input>)
    requires parts != []
    ensures After(s, parts) == After(Step(s, parts[0]), parts[1..])
    ensures Delivered(s, parts) == Exposed(s, parts[0]) + Delivered(Step(s, parts[0]), parts[1..])
  {
    hide Step, Exposed, After, Delivered;
    assert parts == [parts[0]] + parts[1..];
    assert [] + [parts[0]] == [parts[0]];
    FeedNone(s);
    FeedOne(s, [], parts[0]);
    assert [] + Exposed(s, parts[0]) == Exposed(s, parts[0]);
    FeedMore(s, [parts[0]], parts[1..]);
  }

  /** A control record reaches the verdict that the whole record deserves, and exposes nothing. */
  lemma ControlReachesVerdict(parts: seq<Input>, r: Record)
    requires r.kind != APPLICATION_DATA && ControlPieces(parts, r)
    ensures Concludes(After(INITIAL, parts), Some(r))
    ensures Delivered(INITIAL, parts) == []
  {
    hide Step, Exposed;
    PiecesUncons(parts, r);
    FirstPiece(parts[0], r, Payloads(parts[1..]));
    FeedFirst(INITIAL, parts);
    var s := Step(INITIAL, parts[0]);
    if s.terminal.Some? {
      TerminalIsSticky(s, parts[1..]);
    } else {
      var second := parts[1];
      assert s == ReaderState([parts[0].payload[0]], None);
      assert [parts[0].payload[0]] + second.payload + Payloads(parts[2..]) == r.payload;
      SecondPiece(parts[0].payload[0], second, r, Payloads(parts[2..]));
      FeedFirst(s, parts[1..]);
      assert parts[1..][1..] == parts[2..];
      TerminalIsSticky(Step(s, second), parts[2..]);
    }
  }

  lemma ControlThenAnything(parts: seq<Input>, rest: seq<Input>, r: Record)
    requires r.kind != APPLICATION_DATA && ControlPieces(parts, r)
    ensures Concludes(After(INITIAL, parts + rest), Some(r))
    ensures Delivered(INITIAL, parts + rest) == []
  {
    ControlReachesVerdict(parts, r);
    FeedMore(INITIAL, parts, rest);
    TerminalIsSticky(After(INITIAL, parts), rest);
  }

  /** Fragmentation independence: however the kernel cuts and coalesces the records, the reader
      delivers the same bytes and reaches the same verdict as a reader of whole records. */
  lemma FragmentationIndependence(inputs: seq<Input>, records: seq<Record>, k: nat, m: nat)
    requires Serves(inputs, records, k, m)
    ensures Delivered(INITIAL, inputs) == AppBytes(records)
    ensures Concludes(After(INITIAL, inputs), FirstControl(records))
  {
    hide Step, Exposed, ControlPieces, AppPiece;
    var app, tail := inputs[..k], inputs[k..];
    AppPiecesPassThrough(app);
    assert inputs == app + tail;
    FeedMore(INITIAL, app, tail);
    if FirstControl(records).Some? {
      FirstControlIsControl(records);
      var parts, rest := inputs[k..k + m], inputs[k + m..];
      SplitAt(inputs, k, m);
      ControlThenAnything(parts, rest, FirstControl(records).value);
    }
  }

  lemma SplitAt(inputs: seq<Input>, k: nat, m: nat)
    requires k + m <= |inputs|
    ensures inputs[k..] == inputs[k..k + m] + inputs[k + m..]
  {
  }

  lemma {:induction false} FirstControlIsControl(records: seq<Record>)
    ensures FirstControl(records).Some? ==> FirstControl(records).value.kind != APPLICATION_DATA
  {
    if records != [] && records[0].kind == APPLICATION_DATA {
      FirstControlIsControl(records[1..]);
    }
  }

  /** Stopping early, at any fragment: what has been delivered is a prefix, and a verdict already
      reached is the final one. */
  lemma PrefixOfRun(part: seq<Input>, whole: seq<Input>)
    requires part <= whole
    ensures Delivered(INITIAL, part) <= Delivered(INITIAL, whole)
    ensures After(INITIAL, part).terminal.Some? ==>
              && After(INITIAL, whole) == After(INITIAL, part)
              && Delivered(INITIAL, whole) == Delivered(INITIAL, part)
  {
    var rest := whole[|part|..];
    assert whole == part + rest;
    FeedMore(INITIAL, part, rest);
    if After(INITIAL, part).terminal.Some? {
      TerminalIsSticky(After(INITIAL, part), rest);
    }
  }

  /** The connection breaking: the peer's FIN, or any error of the socket. */
  predicate Breaks(i: Input) {
    i == TRANSPORT_CLOSE || i.SocketError?
  }

  /** What the reader must report for a break. */
  function BreakKind(i: Input): ErrorKind
    requires Breaks(i)
  {
    if i.SocketError? then i.error.Kind() else UnexpectedEof
  }

  lemma BreakStep(s: ReaderState, i: Input)
    requires Breaks(i)
    ensures Exposed(s, i) == []
    ensures s.terminal.Some? ==> Step(s, i) == s
    ensures s.terminal.None? ==>
              var t := Step(s, i).terminal;
              t.Some? && t.value.Failed? && t.value.error.Kind() == BreakKind(i)
  {
  }

  /** A broken connection never looks like an end of stream. It fails a live reader, with
      `UnexpectedEof` for a bare FIN even in the middle of an alert; a finished reader does not notice
      it; and whatever comes after it is not seen at all. */
  lemma BreakIsNotEof(inputs: seq<Input>, c: nat)
    requires c < |inputs| && Breaks(inputs[c])
    ensures Delivered(INITIAL, inputs) == Delivered(INITIAL, inputs[..c])
    ensures var s, t := After(INITIAL, inputs[..c]), After(INITIAL, inputs);
            && (s.terminal.Some? ==> t == s)
            && (s.terminal.None? ==> t.terminal.Some? && t.terminal.value.Failed?
                                     && t.terminal.value.error.Kind() == BreakKind(inputs[c]))
  {
    hide After, Delivered, Step, Exposed, Breaks, BreakKind;
    BreakStep(After(INITIAL, inputs[..c]), inputs[c]);
    FeedOne(INITIAL, inputs[..c], inputs[c]);
    var broken := After(INITIAL, inputs[..c] + [inputs[c]]);
    assert inputs == (inputs[..c] + [inputs[c]]) + inputs[c + 1..];
    FeedMore(INITIAL, inputs[..c] + [inputs[c]], inputs[c + 1..]);
    TerminalIsSticky(broken, inputs[c + 1..]);
  }

  // Record-by-record cutting is a special case of `Serves`.

  /** `parts` is record `r` on its own, cut anywhere. */
  predicate Splits(parts: seq<Input>, r: Record) {
    if r.kind == APPLICATION_DATA then
      && (forall j | 0 <= j < |parts| :: AppPiece(parts[j]))
      && Payloads(parts) == r.payload
    else ControlPieces(parts, r)
  }

  lemma {:induction false} RecordwiseSplitServes(groups: seq<seq<Input>>, records: seq<Record>) returns (k: nat, m: nat)
    requires |groups| == |records|
    requires forall j | 0 <= j < |records| :: Splits(groups[j], records[j])
    ensures Serves(Flatten(groups), records, k, m)
  {
    if records == [] {
      k, m := 0, 0;
    } else if records[0].kind != APPLICATION_DATA {
      k, m := 0, |groups[0]|;
      assert Flatten(groups)[0..m] == groups[0];
    } else {
      var k', m' := RecordwiseSplitServes(groups[1..], records[1..]);
      k, m := |groups[0]| + k', m';
      var tail := Flatten(groups[1..]);
      assert Flatten(groups)[..k] == groups[0] + tail[..k'];
      PayloadsAppend(groups[0], tail[..k']);
      assert Flatten(groups)[k..k + m] == tail[k'..k' + m'];
      forall j | 0 <= j < k ensures AppPiece(Flatten(groups)[j]) {
        if j >= |groups[0]| {
          assert Flatten(groups)[j] == tail[j - |groups[0]|];
        }
      }
    }
  }

  /** Every record sequence can be served, for instance one whole record at a time. */
  lemma WholeRecordsServe(records: seq<Record>) returns (inputs: seq<Input>, k: nat, m: nat)
    ensures Serves(inputs, records, k, m)
  {
    var groups := seq(|records|, i requires 0 <= i < |records| =>
      [Fragment(Some(records[i].kind), Flags(true, false, false), records[i].payload)]);
    forall j | 0 <= j < |records| ensures Splits(groups[j], records[j]) {
      assert Payloads(groups[j]) == records[j].payload + Payloads([]);
    }
    inputs := Flatten(groups);
    k, m := RecordwiseSplitServes(groups, records);
  }
}

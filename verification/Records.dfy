/** TLS records as the kernel hands them to `recvmsg`: a payload, flags, and up to two ancillary
    messages carrying the record type. */
module Records {
  import opened Basics

  const ALERT: byte := 21
  const HANDSHAKE: byte := 22
  const APPLICATION_DATA: byte := 23
  const CLOSE_NOTIFY: seq<byte> := [1, 0]

  const SOL_TLS := 282
  const TLS_GET_RECORD_TYPE := 2

  /** CMSG_LEN(1) and CMSG_SPACE(1) on a 64-bit Linux ABI. */
  const CONTROL_LEN := 17
  const CONTROL_SPACE := 24

  /** One plaintext TLS record. */
  datatype Record = Record(kind: byte, payload: seq<byte>)

  /** The bits of `msg_flags` that the reader looks at. */
  datatype Flags = Flags(eor: bool, trunc: bool, ctrunc: bool)

  /** One ancillary header with its one-byte payload. */
  datatype Control = Control(cmsgLen: nat, level: int, kind: int, recordType: byte)
  {
    function RecordType(len: nat, flags: Flags): Result<Option<byte>, IoError> {
      if flags.ctrunc || flags.trunc then
        Err(BadData("truncated kTLS recvmsg payload or ancillary data"))
      else if len == 0 then Ok(None)
      else if !(CONTROL_LEN <= len <= CONTROL_SPACE)
              || cmsgLen != CONTROL_LEN
              || level != SOL_TLS
              || kind != TLS_GET_RECORD_TYPE then
        Err(BadData("invalid kTLS record-type ancillary message"))
      else Ok(Some(recordType))
    }

    /** A complete TLS_GET_RECORD_TYPE message announcing record type `t`. */
    ghost predicate Announces(t: byte) {
      this == Control(CONTROL_LEN, SOL_TLS, TLS_GET_RECORD_TYPE, t)
    }
  }

  function BadData(message: string): IoError {
    Custom(InvalidData, message, 0)
  }

  /** What one successful `recvmsg` reported. `len` is `msg_controllen`. */
  datatype Message = Message(len: nat, flags: Flags, first: Control, second: Control, payload: seq<byte>)
  {
    function RecordType(): Result<Option<byte>, IoError> {
      match first.RecordType(Min(len, CONTROL_SPACE), flags)
      case Err(e) => Err(e)
      case Ok(kind) =>
        if len <= CONTROL_SPACE then Ok(kind)
        else
          match second.RecordType(len - CONTROL_SPACE, flags)
          case Err(e) => Err(e)
          case Ok(again) =>
            if kind != Some(APPLICATION_DATA) || again != kind then
              Err(BadData("conflicting or unsupported duplicate kTLS record-type messages"))
            else Ok(kind)
    }
  }

  /** Exactly the metadata the reader trusts: no ancillary data at all, one complete message, or two
      complete messages that both announce application data. Everything else is `InvalidData`. */
  lemma RecordTypeExact(m: Message)
    ensures m.RecordType() == Ok(None) <==> !m.flags.trunc && !m.flags.ctrunc && m.len == 0
    ensures forall t: byte ::
      m.RecordType() == Ok(Some(t)) <==>
        && !m.flags.trunc && !m.flags.ctrunc
        && m.first.Announces(t)
        && (|| CONTROL_LEN <= m.len <= CONTROL_SPACE
            || (&& CONTROL_SPACE + CONTROL_LEN <= m.len <= 2 * CONTROL_SPACE
                && t == APPLICATION_DATA && m.second.Announces(t)))
    ensures m.RecordType().Err? ==> m.RecordType().error.Kind() == InvalidData
  {
    if m.len > CONTROL_SPACE && m.RecordType() == Ok(None) {
      assert false;
    }
  }

  /** The caller's `ReadBuf`: only the filled prefix is ever visible. */
  class ReadBuf {
    const data: array<byte>
    var filled: nat

    constructor (capacity: nat)
      ensures Valid() && Filled() == [] && fresh(data) && data.Length == capacity
    {
      data := new byte[capacity];
      filled := 0;
    }

    ghost predicate Valid()
      reads this
    {
      filled <= data.Length
    }

    ghost function Filled(): seq<byte>
      reads this, data
      requires Valid()
    {
      data[..filled]
    }

    function Remaining(): (n: nat)
      reads this
      requires Valid()
    {
      data.Length - filled
    }

    /** The foreign side writes into the unfilled region; nothing becomes visible yet. */
    method Scribble(bytes: seq<byte>)
      requires Valid() && |bytes| <= Remaining()
      modifies data
      ensures Filled() == old(Filled())
      ensures data[filled..filled + |bytes|] == bytes
    {
      forall i | 0 <= i < |bytes| {
        data[filled + i] := bytes[i];
      }
    }

    method Advance(n: nat)
      requires Valid() && n <= Remaining()
      modifies this`filled
      ensures Valid()
      ensures Filled() == old(Filled()) + old(data[filled..filled + n])
      ensures filled == old(filled) + n
    {
      filled := filled + n;
    }

    /** Bytes that become visible at once. */
    method Put(bytes: seq<byte>)
      requires Valid() && |bytes| <= Remaining()
      modifies this`filled, data
      ensures Valid() && filled == old(filled) + |bytes|
      ensures Filled() == old(Filled()) + bytes && Filled()[old(filled)..] == bytes
    {
      Scribble(bytes);
      Advance(|bytes|);
    }
  }
}

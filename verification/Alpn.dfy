/** The ALPN wire format, `<len><bytes>` repeated, and the server's choice. */
module Alpn {
  import opened Basics

  datatype AlpnEncodeError = Empty | TooLong

  predicate Fits(p: seq<byte>) {
    1 <= |p| <= 255
  }

  /** The wire form of a list of entries, none over 255 bytes. */
  function Wire(protos: seq<seq<byte>>): seq<byte>
    requires forall p | p in protos :: |p| <= 255
  {
    if protos == [] then [] else [|protos[0]| as byte] + protos[0] + Wire(protos[1..])
  }

  /** The entries that `iter_alpn_wire` yields. */
  function Decode(buf: seq<byte>): (protos: seq<seq<byte>>)
    ensures forall p | p in protos :: |p| <= 255
  {
    if buf == [] || |buf| < 1 + buf[0] as nat then []
    else [buf[1..1 + buf[0] as nat]] + Decode(buf[1 + buf[0] as nat..])
  }

  /** One entry in front of a buffer is read back, and the rest after it. */
  lemma DecodeEntry(p: seq<byte>, rest: seq<byte>)
    requires |p| <= 255
    ensures Decode([|p| as byte] + p + rest) == [p] + Decode(rest)
  {
    var buf := [|p| as byte] + p + rest;
    assert buf[0] as nat == |p| && buf[1..1 + |p|] == p && buf[1 + |p|..] == rest;
  }

  lemma WireFirst(protos: seq<seq<byte>>, rest: seq<byte>)
    requires protos != [] && forall p | p in protos :: |p| <= 255
    ensures Wire(protos) + rest == [|protos[0]| as byte] + protos[0] + (Wire(protos[1..]) + rest)
  {
    var head, tail := [|protos[0]| as byte] + protos[0], Wire(protos[1..]);
    assert (head + tail) + rest == head + (tail + rest);
  }

  /** Decoding reads back any list of entries and then goes on with whatever follows. */
  lemma {:induction false} DecodeWire(protos: seq<seq<byte>>, rest: seq<byte>)
    requires forall p | p in protos :: |p| <= 255
    ensures Decode(Wire(protos) + rest) == protos + Decode(rest)
  {
    hide Decode;
    if protos == [] {
      assert Wire(protos) + rest == rest;
    } else {
      hide Wire;
      WireFirst(protos, rest);
      DecodeEntry(protos[0], Wire(protos[1..]) + rest);
      DecodeWire(protos[1..], rest);
      HeadAndTail(protos, Decode(rest));
    }
  }

  /** Round trip. */
  lemma DecodeInvertsWire(protos: seq<seq<byte>>)
    requires forall p | p in protos :: |p| <= 255
    ensures Decode(Wire(protos)) == protos
  {
    DecodeWire(protos, []);
    assert Wire(protos) + [] == Wire(protos);
  }

  /** What is left of a buffer when the iterator stops. */
  function Leftover(buf: seq<byte>): (rest: seq<byte>)
    ensures rest == [] || |rest| < 1 + rest[0] as nat
  {
    if buf == [] || |buf| < 1 + buf[0] as nat then buf else Leftover(buf[1 + buf[0] as nat..])
  }

  /** On arbitrary bytes the iterator yields exactly the longest well-formed prefix: the buffer is the
      wire form of what was yielded plus a leftover that starts no entry, and any other way to read
      entries off the front reads a prefix of them. */
  lemma DecodeIsLongestPrefix(buf: seq<byte>, protos: seq<seq<byte>>, rest: seq<byte>)
    requires forall p | p in protos :: |p| <= 255
    ensures buf == Wire(Decode(buf)) + Leftover(buf)
    ensures buf == Wire(protos) + rest ==> protos <= Decode(buf)
  {
    WireOfDecode(buf);
    if buf == Wire(protos) + rest {
      DecodeWire(protos, rest);
    }
  }

  lemma {:induction false} WireOfDecode(buf: seq<byte>)
    ensures Wire(Decode(buf)) + Leftover(buf) == buf
  {
    if buf != [] && |buf| >= 1 + buf[0] as nat {
      hide Decode, Wire, Leftover;
      var n := 1 + buf[0] as nat;
      WireOfDecode(buf[n..]);
      DecodeFirst(buf);
      WireFirst(Decode(buf), Leftover(buf));
      EntryAndRest(buf, n);
    }
  }

  lemma EntryAndRest(buf: seq<byte>, n: nat)
    requires 1 <= n <= |buf|
    ensures [buf[0]] + buf[1..n] + buf[n..] == buf
  {
  }

  lemma HeadAndTail(protos: seq<seq<byte>>, more: seq<seq<byte>>)
    requires protos != []
    ensures [protos[0]] + (protos[1..] + more) == protos + more
  {
  }

  lemma DecodeFirst(buf: seq<byte>)
    requires buf != [] && |buf| >= 1 + buf[0] as nat
    ensures var n := 1 + buf[0] as nat;
      && Decode(buf) != [] && Decode(buf)[0] == buf[1..n] && Decode(buf)[1..] == Decode(buf[n..])
      && |buf[1..n]| as byte == buf[0]
      && Leftover(buf) == Leftover(buf[n..])
  {
  }

  method EncodeAlpnWire(protos: seq<seq<byte>>) returns (r: Result<seq<byte>, AlpnEncodeError>)
    ensures r.Ok? <==> forall p | p in protos :: Fits(p)
    ensures r.Ok? ==> (forall p | p in protos :: |p| <= 255) && r.value == Wire(protos)
    // the error is that of the first identifier that does not fit
    ensures r.Err? ==> exists i | 0 <= i < |protos| ::
              && (forall j | 0 <= j < i :: Fits(protos[j]))
              && (if r.error.Empty? then protos[i] == [] else |protos[i]| > 255)
  {
    var out := [];
    for i := 0 to |protos|
      invariant forall j | 0 <= j < i :: Fits(protos[j])
      invariant forall p | p in protos[..i] :: |p| <= 255
      invariant out == Wire(protos[..i])
    {
      var p := protos[i];
      assert p in protos;
      if p == [] {
        return Err(Empty);
      }
      if |p| > 255 {
        return Err(TooLong);
      }
      WireAppend(protos[..i], p);
      assert protos[..i + 1] == protos[..i] + [p];
      out := out + [|p| as byte] + p;
    }
    assert protos[..|protos|] == protos;
    r := Ok(out);
  }

  lemma {:induction false} WireAppend(protos: seq<seq<byte>>, p: seq<byte>)
    requires forall q | q in protos :: |q| <= 255
    requires |p| <= 255
    ensures forall q | q in protos + [p] :: |q| <= 255
    ensures Wire(protos + [p]) == Wire(protos) + [|p| as byte] + p
  {
    if protos == [] {
      assert Wire([p]) == [|p| as byte] + p + Wire([]);
    } else {
      assert (protos + [p])[1..] == protos[1..] + [p];
      WireAppend(protos[1..], p);
    }
  }

  /** `iter_alpn_wire`: the captured buffer advances past each entry it yields. */
  class AlpnIter {
    var buf: seq<byte>

    constructor (buf: seq<byte>)
      ensures this.buf == buf
    {
      this.buf := buf;
    }

    method Next() returns (r: Option<seq<byte>>)
      modifies this
      ensures r.None? <==> Decode(old(buf)) == []
      ensures r.None? ==> buf == old(buf)
      ensures r.Some? ==> |buf| < |old(buf)| && Decode(old(buf)) == [r.value] + Decode(buf)
    {
      if buf == [] {
        return None;
      }
      var len := buf[0] as nat;
      if |buf| < 1 + len {
        return None;
      }
      r := Some(buf[1..1 + len]);
      buf := buf[1 + len..];
    }
  }

  /** The inner loop: does the client offer this protocol? */
  method Offered(clientWire: seq<byte>, proto: seq<byte>) returns (found: bool)
    ensures found <==> proto in Decode(clientWire)
  {
    var client := new AlpnIter(clientWire);
    ghost var tried: seq<seq<byte>> := [];
    while true
      invariant Decode(clientWire) == tried + Decode(client.buf)
      invariant proto !in tried
      decreases |client.buf|
    {
      var next := client.Next();
      if next.None? {
        return false;
      }
      if next.value == proto {
        return true;
      }
      tried := tried + [next.value];
    }
  }

  /** `alpn_select_cb` on the configured server wire and whatever bytes the client sent. `None` is the
      fatal `no_application_protocol` alert. */
  method AlpnSelect(serverWire: seq<byte>, clientWire: seq<byte>) returns (r: Option<seq<byte>>)
    ensures r.Some? ==> exists i | 0 <= i < |Decode(serverWire)| ::
              && r.value == Decode(serverWire)[i] && r.value in Decode(clientWire)
              && (forall j | 0 <= j < i :: Decode(serverWire)[j] !in Decode(clientWire))
    ensures r.None? <==> forall p | p in Decode(serverWire) :: p !in Decode(clientWire)
    ensures r.Some? ==> |r.value| <= 255
  {
    var server := new AlpnIter(serverWire);
    ghost var tried: seq<seq<byte>> := [];
    while true
      invariant Decode(serverWire) == tried + Decode(server.buf)
      invariant forall p | p in tried :: p !in Decode(clientWire)
      decreases |server.buf|
    {
      var next := server.Next();
      if next.None? {
        return None;
      }
      var found := Offered(clientWire, next.value);
      if found {
        assert Decode(serverWire)[|tried|] == next.value;
        return Some(next.value);
      }
      tried := tried + [next.value];
    }
  }

  /** The whole server side: a non-empty configured list is encoded once, or refused, and consulted for
      each client. The choice is the first configured identifier that the client offers, hence never
      empty; there is none exactly when the lists are disjoint, as section 3.2 of RFC 7301 wants. */
  method ConfigureAndSelect(protos: seq<seq<byte>>, clientWire: seq<byte>)
    returns (r: Result<Option<seq<byte>>, AlpnEncodeError>)
    requires protos != []
    ensures r.Ok? <==> forall p | p in protos :: Fits(p)
    ensures r == Ok(None) <==> forall p | p in protos :: Fits(p) && p !in Decode(clientWire)
    ensures r.Ok? && r.value.Some? ==> exists i | 0 <= i < |protos| ::
              && r.value.value == protos[i] && Fits(protos[i]) && protos[i] in Decode(clientWire)
              && (forall j | 0 <= j < i :: protos[j] !in Decode(clientWire))
  {
    var wire := EncodeAlpnWire(protos);
    if wire.Err? {
      return Err(wire.error);
    }
    DecodeInvertsWire(protos);
    var choice := AlpnSelect(wire.value, clientWire);
    r := Ok(choice);
  }
}

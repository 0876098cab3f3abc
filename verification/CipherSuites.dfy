/** Typed cipher suites and the allowlist they impose on an `SSL_CTX`. */
module CipherSuites {
  import opened Basics
  import opened KeyMaterial

  datatype ProtocolVersion = Tls12 | Tls13
  {
    function Raw(): int {
      if this.Tls12? then TLS_1_2_VERSION else TLS_1_3_VERSION
    }
  }

  /** How the server is authenticated; TLS 1.3 negotiates that apart from the suite. */
  datatype Auth = Separate | Ecdsa | Rsa

  /** The suites of the crate. The type is opaque to callers, so there are no others. */
  datatype CipherSuite =
    | Tls13Aes128GcmSha256
    | Tls13Aes256GcmSha384
    | Tls13Chacha20Poly1305Sha256
    | EcdsaAes128GcmSha256
    | EcdsaAes256GcmSha384
    | EcdsaChacha20Poly1305Sha256
    | RsaAes128GcmSha256
    | RsaAes256GcmSha384
    | RsaChacha20Poly1305Sha256
  {
    function OpensslName(): string {
      match this
      case Tls13Aes128GcmSha256 => "TLS_AES_128_GCM_SHA256"
      case Tls13Aes256GcmSha384 => "TLS_AES_256_GCM_SHA384"
      case Tls13Chacha20Poly1305Sha256 => "TLS_CHACHA20_POLY1305_SHA256"
      case EcdsaAes128GcmSha256 => "ECDHE-ECDSA-AES128-GCM-SHA256"
      case EcdsaAes256GcmSha384 => "ECDHE-ECDSA-AES256-GCM-SHA384"
      case EcdsaChacha20Poly1305Sha256 => "ECDHE-ECDSA-CHACHA20-POLY1305"
      case RsaAes128GcmSha256 => "ECDHE-RSA-AES128-GCM-SHA256"
      case RsaAes256GcmSha384 => "ECDHE-RSA-AES256-GCM-SHA384"
      case RsaChacha20Poly1305Sha256 => "ECDHE-RSA-CHACHA20-POLY1305"
    }

    function IanaId(): int {
      match this
      case Tls13Aes128GcmSha256 => 0x1301
      case Tls13Aes256GcmSha384 => 0x1302
      case Tls13Chacha20Poly1305Sha256 => 0x1303
      case EcdsaAes128GcmSha256 => 0xC02B
      case EcdsaAes256GcmSha384 => 0xC02C
      case EcdsaChacha20Poly1305Sha256 => 0xCCA9
      case RsaAes128GcmSha256 => 0xC02F
      case RsaAes256GcmSha384 => 0xC030
      case RsaChacha20Poly1305Sha256 => 0xCCA8
    }

    function Aead(): Aead {
      match this
      case Tls13Aes128GcmSha256 | EcdsaAes128GcmSha256 | RsaAes128GcmSha256 => Aes128Gcm
      case Tls13Aes256GcmSha384 | EcdsaAes256GcmSha384 | RsaAes256GcmSha384 => Aes256Gcm
      case _ => Chacha20Poly1305
    }

    function Auth(): Auth {
      match this
      case EcdsaAes128GcmSha256 | EcdsaAes256GcmSha384 | EcdsaChacha20Poly1305Sha256 => Ecdsa
      case RsaAes128GcmSha256 | RsaAes256GcmSha384 | RsaChacha20Poly1305Sha256 => Rsa
      case _ => Separate
    }

    function Version(): ProtocolVersion {
      if Tls13Aes128GcmSha256? || Tls13Aes256GcmSha384? || Tls13Chacha20Poly1305Sha256? then Tls13 else Tls12
    }
  }

  /** The crate's suites are exactly the negotiations that the kernel can take over, and the cipher
      that will be installed has the protocol version and the AEAD of the suite. */
  lemma SuitesAreTheOffloadableOnes(version: int, id: int)
    ensures FromIds(version, id).Some? <==> exists s: CipherSuite :: s.Version().Raw() == version && s.IanaId() == id
    ensures forall s: CipherSuite | s.Version().Raw() == version && s.IanaId() == id ::
              && FromIds(version, id).Some?
              && var c := FromIds(version, id).value;
                 && IsTls13(c) == s.Version().Tls13? && AeadOf(c) == s.Aead()
                 && IsChacha(c) == (s.Tls13Chacha20Poly1305Sha256? || s.EcdsaChacha20Poly1305Sha256? || s.RsaChacha20Poly1305Sha256?)
                 && (KeyLength(c) == 16) == (s.Tls13Aes128GcmSha256? || s.EcdsaAes128GcmSha256? || s.RsaAes128GcmSha256?)
  {
    if FromIds(version, id).Some? {
      var s :=
        if id == 0x1301 then Tls13Aes128GcmSha256
        else if id == 0x1302 then Tls13Aes256GcmSha384
        else if id == 0x1303 then Tls13Chacha20Poly1305Sha256
        else if id == 0xC02B then EcdsaAes128GcmSha256
        else if id == 0xC02C then EcdsaAes256GcmSha384
        else if id == 0xCCA9 then EcdsaChacha20Poly1305Sha256
        else if id == 0xC02F then RsaAes128GcmSha256
        else if id == 0xC030 then RsaAes256GcmSha384
        else RsaChacha20Poly1305Sha256;
      assert s.Version().Raw() == version && s.IanaId() == id;
    }
  }

  /** The parts of a suite, as AWS-LC spells them: the IANA name for TLS 1.3, the cipher-list name for
      TLS 1.2. */
  function Spelled(v: ProtocolVersion, auth: Auth, aead: Aead): string {
    match aead
    case Aes128Gcm =>
      if v.Tls13? then "TLS_AES_128_GCM_SHA256"
      else if auth.Rsa? then "ECDHE-RSA-AES128-GCM-SHA256" else "ECDHE-ECDSA-AES128-GCM-SHA256"
    case Aes256Gcm =>
      if v.Tls13? then "TLS_AES_256_GCM_SHA384"
      else if auth.Rsa? then "ECDHE-RSA-AES256-GCM-SHA384" else "ECDHE-ECDSA-AES256-GCM-SHA384"
    case Chacha20Poly1305 =>
      if v.Tls13? then "TLS_CHACHA20_POLY1305_SHA256"
      else if auth.Rsa? then "ECDHE-RSA-CHACHA20-POLY1305" else "ECDHE-ECDSA-CHACHA20-POLY1305"
  }

  /** The registered suites with forward secrecy and an AEAD that the kernel knows: appendix B.4 of
      RFC 8446, section 3.2 of RFC 5289 and section 2 of RFC 7905. */
  function Registry(id: int): Option<(ProtocolVersion, Auth, Aead)> {
    match id
    case 0x1301 => Some((Tls13, Separate, Aes128Gcm))
    case 0x1302 => Some((Tls13, Separate, Aes256Gcm))
    case 0x1303 => Some((Tls13, Separate, Chacha20Poly1305))
    case 0xC02B => Some((Tls12, Ecdsa, Aes128Gcm))
    case 0xC02C => Some((Tls12, Ecdsa, Aes256Gcm))
    case 0xC02F => Some((Tls12, Rsa, Aes128Gcm))
    case 0xC030 => Some((Tls12, Rsa, Aes256Gcm))
    case 0xCCA8 => Some((Tls12, Rsa, Chacha20Poly1305))
    case 0xCCA9 => Some((Tls12, Ecdsa, Chacha20Poly1305))
    case _ => None
  }

  /** A suite is its parts: its name spells them in full, its identifier is registered for them, and no
      other suite has them. */
  lemma SuiteIsItsParts(s: CipherSuite, t: CipherSuite)
    ensures s.OpensslName() == Spelled(s.Version(), s.Auth(), s.Aead())
    ensures Registry(s.IanaId()) == Some((s.Version(), s.Auth(), s.Aead()))
    ensures s.Version() == t.Version() && s.Auth() == t.Auth() && s.Aead() == t.Aead() ==> s == t
  {
    match s
    case Tls13Aes128GcmSha256 =>
    case Tls13Aes256GcmSha384 =>
    case Tls13Chacha20Poly1305Sha256 =>
    case EcdsaAes128GcmSha256 =>
    case EcdsaAes256GcmSha384 =>
    case EcdsaChacha20Poly1305Sha256 =>
    case RsaAes128GcmSha256 =>
    case RsaAes256GcmSha384 =>
    case RsaChacha20Poly1305Sha256 =>
  }

  /** A name that survives in a colon-separated list. */
  predicate Listable(name: string) {
    name != "" && ':' !in name
  }

  lemma NamesAreListable(s: CipherSuite)
    ensures Listable(s.OpensslName())
  {
    match s
    case EcdsaAes128GcmSha256 =>
    case EcdsaAes256GcmSha384 =>
    case EcdsaChacha20Poly1305Sha256 =>
    case RsaAes128GcmSha256 =>
    case RsaAes256GcmSha384 =>
    case RsaChacha20Poly1305Sha256 =>
    case _ => Tls13NamesAreListable(s);
  }

  lemma Tls13NamesAreListable(s: CipherSuite)
    requires s.Version() == Tls13
    ensures Listable(s.OpensslName())
  {
    match s
    case Tls13Aes128GcmSha256 =>
    case Tls13Aes256GcmSha384 =>
    case Tls13Chacha20Poly1305Sha256 =>
  }

  /** A few characters that already tell the names apart. */
  function Signature(name: string): (int, char, char)
    requires |name| > 15
  {
    (|name|, name[8], if |name| == 27 then name[13] else name[15])
  }

  lemma SignatureOf(s: CipherSuite)
    ensures |s.OpensslName()| > 15
    ensures Signature(s.OpensslName()) ==
      match s
      case Tls13Aes128GcmSha256 => (22, '1', '_')
      case Tls13Aes256GcmSha384 => (22, '2', '_')
      case Tls13Chacha20Poly1305Sha256 => (28, 'H', 'L')
      case EcdsaAes128GcmSha256 => (29, 'D', '1')
      case EcdsaAes256GcmSha384 => (29, 'D', '2')
      case EcdsaChacha20Poly1305Sha256 => (29, 'D', 'C')
      case RsaAes128GcmSha256 => (27, 'A', '1')
      case RsaAes256GcmSha384 => (27, 'A', '2')
      case RsaChacha20Poly1305Sha256 => (27, 'A', 'C')
  {
  }

  lemma NamesAreDistinct(s: CipherSuite, t: CipherSuite)
    ensures s.OpensslName() == t.OpensslName() ==> s == t
  {
    SignatureOf(s);
    SignatureOf(t);
  }

  // Joining and splitting colon-separated lists.

  /** The names listed for one version, in order. */
  function NamesFor(suites: seq<CipherSuite>, v: ProtocolVersion): seq<string> {
    if suites == [] then []
    else
      var last := suites[|suites| - 1];
      NamesFor(suites[..|suites| - 1], v) + if last.Version() == v then [last.OpensslName()] else []
  }

  lemma NamesForMore(suites: seq<CipherSuite>, s: CipherSuite, v: ProtocolVersion)
    ensures NamesFor(suites + [s], v) ==
              if s.Version() == v then NamesFor(suites, v) + [s.OpensslName()] else NamesFor(suites, v)
  {
    assert (suites + [s])[..|suites|] == suites;
  }

  function Join(names: seq<string>): string {
    if names == [] then ""
    else if |names| == 1 then names[0]
    else Join(names[..|names| - 1]) + ":" + names[|names| - 1]
  }

  lemma JoinMore(names: seq<string>, name: string)
    ensures Join(names + [name]) == if names == [] then name else Join(names) + ":" + name
  {
    assert (names + [name])[..|names|] == names;
  }

  /** How AWS-LC reads a list: the pieces closed by a colon, and the piece being read. */
  function Pieces(s: string): (seq<string>, string) {
    if s == "" then ([], "")
    else
      var (done, current) := Pieces(s[..|s| - 1]);
      if s[|s| - 1] == ':' then (done + [current], "") else (done, current + [s[|s| - 1]])
  }

  function SplitColons(s: string): seq<string> {
    Pieces(s).0 + [Pieces(s).1]
  }

  /** Characters other than the colon extend the piece being read. */
  lemma {:induction false} PiecesExtend(s: string, name: string)
    requires ':' !in name
    ensures Pieces(s + name) == (Pieces(s).0, Pieces(s).1 + name)
  {
    if name == "" {
      assert s + name == s && Pieces(s).1 + name == Pieces(s).1;
    } else {
      var front, c := name[..|name| - 1], name[|name| - 1];
      assert c in name && name == front + [c];
      assert s + name == (s + front) + [c];
      assert ((s + front) + [c])[..|s + front|] == s + front;
      PiecesExtend(s, front);
      var current := Pieces(s).1;
      assert (current + front) + [c] == current + name;
    }
  }

  lemma PiecesColon(s: string)
    ensures Pieces(s + ":") == (Pieces(s).0 + [Pieces(s).1], "")
  {
    assert (s + ":")[..|s|] == s;
  }

  /** Splitting recovers exactly the names that were joined, in order. */
  lemma {:induction false} SplitInvertsJoin(names: seq<string>)
    requires names != [] && forall n | n in names :: Listable(n)
    ensures Pieces(Join(names)) == (names[..|names| - 1], names[|names| - 1])
    ensures SplitColons(Join(names)) == names
    ensures Join(names) != ""
  {
    hide Pieces, Join;
    var front, last := names[..|names| - 1], names[|names| - 1];
    assert last in names && names == front + [last];
    JoinMore(front, last);
    if front == [] {
      PiecesOfNothing();
      PiecesExtend("", last);
      assert "" + last == last;
    } else {
      SplitInvertsJoin(front);
      PiecesColon(Join(front));
      PiecesExtend(Join(front) + ":", last);
      assert front[..|front| - 1] + [front[|front| - 1]] == front;
      assert "" + last == last;
    }
  }

  lemma PiecesOfNothing()
    ensures Pieces("") == ([], "")
  {
  }

  /** A name is listed for a version exactly when its suite is in the list. */
  lemma {:induction false} NamesForExact(suites: seq<CipherSuite>, v: ProtocolVersion)
    ensures forall n | n in NamesFor(suites, v) :: Listable(n)
    ensures forall s: CipherSuite | s.Version() == v :: s.OpensslName() in NamesFor(suites, v) <==> s in suites
    ensures forall n | n in NamesFor(suites, v) :: exists s: CipherSuite | s in suites :: s.Version() == v && s.OpensslName() == n
  {
    if suites != [] {
      var front, last := suites[..|suites| - 1], suites[|suites| - 1];
      NamesForExact(front, v);
      NamesAreListable(last);
      assert suites == front + [last];
      NamesForMore(front, last, v);
      hide *;
      forall s: CipherSuite
        ensures s.OpensslName() == last.OpensslName() ==> s == last
      {
        NamesAreDistinct(s, last);
      }
    }
  }

  function Listed(names: seq<string>): Option<string> {
    if names == [] then None else Some(Join(names))
  }

  /** `split_for_aws_lc`: one pass, two accumulators, a colon between entries and none before the first. */
  method SplitForAwsLc(suites: seq<CipherSuite>) returns (tls12: Option<string>, tls13: Option<string>)
    ensures tls12 == Listed(NamesFor(suites, Tls12))
    ensures tls13 == Listed(NamesFor(suites, Tls13))
  {
    hide CipherSuite.OpensslName;
    var a, b := "", "";
    for i := 0 to |suites|
      invariant Accumulates(a, NamesFor(suites[..i], Tls12))
      invariant Accumulates(b, NamesFor(suites[..i], Tls13))
    {
      var s := suites[i];
      assert suites[..i + 1] == suites[..i] + [s];
      NamesForMore(suites[..i], s, Tls12);
      NamesForMore(suites[..i], s, Tls13);
      NamesAreListable(s);
      if s.Version() == Tls12 {
        a := Append(a, s.OpensslName(), NamesFor(suites[..i], Tls12));
      } else {
        b := Append(b, s.OpensslName(), NamesFor(suites[..i], Tls13));
      }
    }
    assert suites[..|suites|] == suites;
    tls12 := if a == "" then None else Some(a);
    tls13 := if b == "" then None else Some(b);
  }

  ghost predicate Accumulates(target: string, names: seq<string>) {
    target == Join(names) && (target == "" <==> names == [])
  }

  method Append(target: string, name: string, ghost names: seq<string>) returns (r: string)
    requires Accumulates(target, names) && name != ""
    ensures Accumulates(r, names + [name])
  {
    JoinMore(names, name);
    r := target;
    if r != "" {
      r := r + ":";
    }
    r := r + name;
  }

  /** SSL_OP_NO_TLSv1_2 and SSL_OP_NO_TLSv1_3, as bit numbers. */
  const NO_TLS_1_2: nat := 27
  const NO_TLS_1_3: nat := 29

  /** The part of an `SSL_CTX` that decides what can be negotiated. Options are a set of bits. */
  datatype Ctx = Ctx(min: ProtocolVersion, max: ProtocolVersion, options: set<nat>, cipherList: string, ciphersuites: string)
  {
    /** AWS-LC intersects the protocol options with the configured bounds. */
    predicate VersionEnabled(v: ProtocolVersion) {
      && min.Raw() <= v.Raw() <= max.Raw()
      && (if v.Tls12? then NO_TLS_1_2 else NO_TLS_1_3) !in options
    }

    predicate Negotiable(v: ProtocolVersion, name: string) {
      VersionEnabled(v) && name in SplitColons(if v.Tls12? then cipherList else ciphersuites)
    }
  }

  class SslCtx {
    var state: Ctx

    constructor (state: Ctx)
      ensures this.state == state
    {
      this.state := state;
    }

    /** `apply_to_ctx`. `accepts12` and `accepts13` are AWS-LC's answers to the two list setters. */
    method ApplyToCtx(suites: seq<CipherSuite>, accepts12: bool, accepts13: bool) returns (r: Result<Unit, Error>)
      modifies this
      ensures suites == [] ==> r.Ok? && state == old(state)
      ensures r.Ok? && suites != [] ==> IsAllowlist(old(state), state, suites)
      ensures r.Ok? <==> (NamesFor(suites, Tls12) != [] ==> accepts12) && (NamesFor(suites, Tls13) != [] ==> accepts13)
      ensures r.Err? ==> r.error.Init?
      // a list is replaced exactly if there is one and AWS-LC took it, the TLS 1.2 list first
      ensures state.cipherList ==
                if NamesFor(suites, Tls12) != [] && accepts12 then Join(NamesFor(suites, Tls12)) else old(state.cipherList)
      ensures state.ciphersuites ==
                if NamesFor(suites, Tls13) != [] && accepts13 && (NamesFor(suites, Tls12) != [] ==> accepts12)
                then Join(NamesFor(suites, Tls13)) else old(state.ciphersuites)
      // even a rejected list has switched the absent versions off, and has touched no bound
      ensures suites != [] ==>
                && state.min == old(state.min) && state.max == old(state.max)
                && state.options == Restricted(old(state.options), suites)
    {
      hide NamesFor, SplitColons, CipherSuite.OpensslName, Join;
      if suites == [] {
        NamesForNothing();
        return Ok(Unit);
      }
      var tls12, tls13 := SplitForAwsLc(suites);
      var disabled := {};
      if tls12.None? {
        disabled := disabled + {NO_TLS_1_2};
      }
      if tls13.None? {
        disabled := disabled + {NO_TLS_1_3};
      }
      state := state.(options := state.options + disabled);
      if tls12.Some? {
        if !accepts12 {
          return Err(Init("SSL_CTX_set_cipher_list"));
        }
        state := state.(cipherList := tls12.value);
      }
      if tls13.Some? {
        if !accepts13 {
          return Err(Init("SSL_CTX_set_ciphersuites"));
        }
        state := state.(ciphersuites := tls13.value);
      }
      AppliedIsAllowlist(old(state), state, suites);
      r := Ok(Unit);
    }
  }

  lemma NamesForNothing()
    ensures forall v :: NamesFor([], v) == []
  {
  }

  function Restricted(options: set<nat>, suites: seq<CipherSuite>): set<nat> {
    options
    + (if NamesFor(suites, Tls12) == [] then {NO_TLS_1_2} else {})
    + (if NamesFor(suites, Tls13) == [] then {NO_TLS_1_3} else {})
  }

  /** The documented guarantee: what can be negotiated afterwards is exactly the listed suites, within
      the versions enabled before, and each of them is offloadable. */
  ghost predicate IsAllowlist(before: Ctx, after: Ctx, suites: seq<CipherSuite>) {
    && (forall s: CipherSuite ::
          after.Negotiable(s.Version(), s.OpensslName()) <==> s in suites && before.VersionEnabled(s.Version()))
    && (forall v, name | after.Negotiable(v, name) ::
          exists s: CipherSuite | s in suites ::
            s.Version() == v && s.OpensslName() == name && FromIds(v.Raw(), s.IanaId()).Some?)
  }

  /** `after` is `before` with the absent versions off and the present ones given their list. */
  ghost predicate Applied(before: Ctx, after: Ctx, suites: seq<CipherSuite>) {
    && after.min == before.min && after.max == before.max
    && after.options == Restricted(before.options, suites)
    && (NamesFor(suites, Tls12) != [] ==> after.cipherList == Join(NamesFor(suites, Tls12)))
    && (NamesFor(suites, Tls13) != [] ==> after.ciphersuites == Join(NamesFor(suites, Tls13)))
  }

  lemma AppliedToVersion(before: Ctx, after: Ctx, suites: seq<CipherSuite>, v: ProtocolVersion, name: string)
    requires Applied(before, after, suites)
    ensures after.Negotiable(v, name) <==> before.VersionEnabled(v) && name in NamesFor(suites, v)
  {
    hide NamesFor, SplitColons, CipherSuite.OpensslName, Join;
    NamesForExact(suites, v);
    if NamesFor(suites, v) != [] {
      SplitInvertsJoin(NamesFor(suites, v));
    }
  }

  lemma AppliedIsAllowlist(before: Ctx, after: Ctx, suites: seq<CipherSuite>)
    requires Applied(before, after, suites)
    ensures IsAllowlist(before, after, suites)
  {
    hide NamesFor, SplitColons, CipherSuite.OpensslName, Join, Applied, Ctx.Negotiable;
    forall s: CipherSuite
      ensures after.Negotiable(s.Version(), s.OpensslName()) <==> s in suites && before.VersionEnabled(s.Version())
    {
      NamesForExact(suites, s.Version());
      AppliedToVersion(before, after, suites, s.Version(), s.OpensslName());
    }
    forall v, name | after.Negotiable(v, name)
      ensures exists s: CipherSuite | s in suites ::
                s.Version() == v && s.OpensslName() == name && FromIds(v.Raw(), s.IanaId()).Some?
    {
      NamesForExact(suites, v);
      AppliedToVersion(before, after, suites, v, name);
      var s: CipherSuite :| s in suites && s.Version() == v && s.OpensslName() == name;
      SuitesAreTheOffloadableOnes(v.Raw(), s.IanaId());
    }
  }
}

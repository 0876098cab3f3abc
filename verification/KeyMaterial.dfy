/** From a finished handshake to the crypto-info blocks that are pushed into the kernel. */
module KeyMaterial {
  import opened Basics

  const TLS_1_2_VERSION := 0x0303
  const TLS_1_3_VERSION := 0x0304

  const TLS_CIPHER_AES_GCM_128 := 51
  const TLS_CIPHER_AES_GCM_256 := 52
  const TLS_CIPHER_CHACHA20_POLY1305 := 54

  datatype KtlsCipher =
    | Tls13Aes128Gcm
    | Tls13Aes256Gcm
    | Tls13Chacha20Poly1305
    | Tls12Aes128Gcm
    | Tls12Aes256Gcm
    | Tls12Chacha20Poly1305

  /** `KtlsCipher::from_ids`: the offloadable (version, IANA suite) pairs. */
  function FromIds(version: int, id: int): Option<KtlsCipher> {
    if version == TLS_1_3_VERSION then
      match id
      case 0x1301 => Some(Tls13Aes128Gcm)
      case 0x1302 => Some(Tls13Aes256Gcm)
      case 0x1303 => Some(Tls13Chacha20Poly1305)
      case _ => None
    else if version == TLS_1_2_VERSION then
      if id == 0xC02B || id == 0xC02F then Some(Tls12Aes128Gcm)
      else if id == 0xC02C || id == 0xC030 then Some(Tls12Aes256Gcm)
      else if id == 0xCCA9 || id == 0xCCA8 then Some(Tls12Chacha20Poly1305)
      else None
    else None
  }

  // Big-endian integers and the HkdfLabel structure of section 7.1 of RFC 8446.

  /** The `len` low-order bytes of `n`, most significant first. */
  function BigEndian(n: nat, len: nat): (r: seq<byte>)
    ensures |r| == len
  {
    if len == 0 then [] else BigEndian(n / 256, len - 1) + [(n % 256) as byte]
  }

  function Value(bytes: seq<byte>): nat {
    if bytes == [] then 0 else Value(bytes[..|bytes| - 1]) * 256 + bytes[|bytes| - 1] as nat
  }

  function Pow256(len: nat): nat {
    if len == 0 then 1 else 256 * Pow256(len - 1)
  }

  lemma {:induction false} BigEndianRoundTrip(n: nat, len: nat)
    requires n < Pow256(len)
    ensures Value(BigEndian(n, len)) == n
  {
    if len > 0 {
      BigEndianRoundTrip(n / 256, len - 1);
      var r := BigEndian(n, len);
      assert r[..len - 1] == BigEndian(n / 256, len - 1) && r[len - 1] == (n % 256) as byte;
    }
  }

  /** "tls13 " in ASCII. */
  const TLS13_PREFIX: seq<byte> := [116, 108, 115, 49, 51, 32]

  /** The `info` bytes of `hkdf_expand_label`; the assertions of the source are its preconditions. */
  function HkdfLabel(length: nat, name: seq<byte>): seq<byte>
    requires length < 65536 && |name| <= 249
  {
    BigEndian(length, 2) + [(|TLS13_PREFIX| + |name|) as byte] + TLS13_PREFIX + name + [0]
  }

  /** The bytes as `hkdf_expand_label` builds them up, one field after the other. */
  method BuildHkdfInfo(length: nat, name: seq<byte>) returns (info: seq<byte>)
    requires length < 65536 && |name| <= 249
    ensures info == HkdfLabel(length, name)
    ensures ParseHkdfLabel(info) == Some((length, TLS13_PREFIX + name, []))
  {
    var fullLength := |TLS13_PREFIX| + |name|;
    info := BigEndian(length, 2);
    info := info + [fullLength as byte];
    info := info + TLS13_PREFIX;
    info := info + name;
    info := info + [0];
    HkdfLabelParses(length, name);
  }

  /** A reader of the HkdfLabel structure: length, label and context, with nothing left over. */
  function ParseHkdfLabel(info: seq<byte>): Option<(nat, seq<byte>, seq<byte>)> {
    if |info| < 3 then None
    else
      var n := info[2] as nat;
      if |info| < 4 + n then None
      else
        var c := info[3 + n] as nat;
        if |info| != 4 + n + c then None
        else Some((Value(info[..2]), info[3..3 + n], info[4 + n..]))
  }

  /** The encoding parses back to exactly what it was built from, with an empty context. */
  lemma HkdfLabelParses(length: nat, name: seq<byte>)
    requires length < 65536 && |name| <= 249
    ensures ParseHkdfLabel(HkdfLabel(length, name)) == Some((length, TLS13_PREFIX + name, []))
  {
    var info := HkdfLabel(length, name);
    var n := |TLS13_PREFIX| + |name|;
    assert Pow256(2) == 65536 by {
      assert Pow256(1) == 256;
    }
    BigEndianRoundTrip(length, 2);
    assert info[..2] == BigEndian(length, 2);
    assert info[2] == n as byte;
    assert info[3..3 + n] == TLS13_PREFIX + name;
    assert info[3 + n] == 0 && |info| == 4 + n && info[4 + n..] == [];
    assert (n as byte) as nat == n;
  }

  /** Hence two different derivations never share an info string. */
  lemma HkdfLabelInjective(length: nat, name: seq<byte>, length': nat, name': seq<byte>)
    requires length < 65536 && |name| <= 249 && length' < 65536 && |name'| <= 249
    requires HkdfLabel(length, name) == HkdfLabel(length', name')
    ensures length == length' && name == name'
  {
    HkdfLabelParses(length, name);
    HkdfLabelParses(length', name');
    assert name == (TLS13_PREFIX + name)[6..] && name' == (TLS13_PREFIX + name')[6..];
  }

  // Key material.

  datatype Hash = Sha256 | Sha384

  datatype Error = Init(what: string) | Ktls(error: KtlsError)

  datatype KtlsError =
    | NotSupported
    | IneligibleCipher
    | BufferedPlaintext(n: nat)
    | TlsUlpUnavailable(error: IoError)
    | SocketUnattachable(error: IoError)
    | CryptoUnavailable(error: IoError)
    | SetSockOpt(error: IoError)

  /** Key material comes out of a KDF as a byte stream of which the caller takes a prefix. */
  type KeyStream = nat -> byte

  function Take(s: KeyStream, n: nat): (r: seq<byte>)
    ensures |r| == n
  {
    seq(n, (i: nat) => s(i))
  }

  /** What libssl and libcrypto answer about one finished handshake. `None` stands for a failing call;
      a traffic secret comes with whatever length libssl reports. */
  datatype Handshake = Handshake(
    version: int,
    cipherId: Option<int>,
    server: bool,
    writeSequence: nat,
    readSequence: nat,
    writeSecret: Option<seq<byte>>,
    readSecret: Option<seq<byte>>,
    keyBlock: Option<KeyStream>,
    hkdf: (Hash, seq<byte>, seq<byte>) -> Option<KeyStream>)

  /** One `tls12_crypto_info_*` structure. */
  datatype Block = Block(version: int, cipherType: int, iv: seq<byte>, key: seq<byte>, salt: seq<byte>, recSeq: seq<byte>)

  datatype CryptoInfo = CryptoInfo(tx: Block, rx: Block)

  /** `build_aes_gcm_128` and `build_aes_gcm_256`. `copy_from_slice` panics unless the lengths agree;
      here that is the precondition. */
  function BuildAesGcm(version: int, keyLen: nat, key: seq<byte>, salt: seq<byte>, iv: seq<byte>, sequence: nat): Block
    requires (keyLen == 16 || keyLen == 32) && |key| == keyLen && |salt| == 4 && |iv| == 8
  {
    Block(version, if keyLen == 16 then TLS_CIPHER_AES_GCM_128 else TLS_CIPHER_AES_GCM_256,
          iv, key, salt, BigEndian(sequence, 8))
  }

  function BuildChacha20Poly1305(version: int, key: seq<byte>, iv: seq<byte>, sequence: nat): Block
    requires |key| == 32 && |iv| == 12
  {
    Block(version, TLS_CIPHER_CHACHA20_POLY1305, iv, key, [], BigEndian(sequence, 8))
  }

  const KEY_LABEL: seq<byte> := [107, 101, 121]
  const IV_LABEL: seq<byte> := [105, 118]

  function Ascii(s: string): seq<byte> {
    if s == "" || s[0] as int > 127 then [] else [s[0] as int as byte] + Ascii(s[1..])
  }

  /** The labels of sections 7.1 and 7.3 of RFC 8446. */
  lemma LabelsAreSpelled()
    ensures TLS13_PREFIX == Ascii("tls13 ") && KEY_LABEL == Ascii("key") && IV_LABEL == Ascii("iv")
  {
    assert Ascii("key") == [107] + ([101] + ([121] + Ascii("key"[3..]))) by {
      assert "key"[1..][1..] == "key"[2..] && "key"[2..][1..] == "key"[3..];
    }
    assert Ascii("iv") == [105] + ([118] + Ascii("iv"[2..])) by {
      assert "iv"[1..][1..] == "iv"[2..];
    }
    var t := "tls13 ";
    assert t[1..][1..] == t[2..] && t[2..][1..] == t[3..] && t[3..][1..] == t[4..] && t[4..][1..] == t[5..];
    assert Ascii(t[5..]) == [32] + Ascii(t[6..]) && t[6..] == "";
    assert Ascii(t[4..]) == [51, 32];
    assert Ascii(t[3..]) == [49, 51, 32];
    assert Ascii(t[2..]) == [115, 49, 51, 32];
  }

  function HkdfExpandLabel(h: Handshake, hash: Hash, secret: seq<byte>, name: seq<byte>, n: nat): (r: Result<seq<byte>, Error>)
    requires n < 65536 && |name| <= 249
    ensures r.Ok? ==> |r.value| == n
  {
    match h.hkdf(hash, secret, HkdfLabel(n, name))
    case None => Err(Init("HKDF_expand"))
    case Some(stream) => Ok(Take(stream, n))
  }

  /** `tls13_traffic_secret`: the secret must have the length of the negotiated hash. */
  function TrafficSecret(secret: Option<seq<byte>>, expected: nat): (r: Result<seq<byte>, Error>)
    ensures r.Ok? <==> secret.Some? && |secret.value| == expected
    ensures r.Ok? ==> r.value == secret.value
  {
    if secret.Some? && |secret.value| == expected then Ok(secret.value) else Err(Init("traffic_secret"))
  }

  /** One direction of TLS 1.3: the key and the 12-byte IV of a traffic secret. */
  function Tls13Keys(h: Handshake, hash: Hash, secret: seq<byte>, keyLen: nat): (r: Result<(seq<byte>, seq<byte>), Error>)
    requires keyLen < 65536
    ensures r.Ok? ==> |r.value.0| == keyLen && |r.value.1| == 12
  {
    match HkdfExpandLabel(h, hash, secret, KEY_LABEL, keyLen)
    case Err(e) => Err(e)
    case Ok(key) =>
      match HkdfExpandLabel(h, hash, secret, IV_LABEL, 12)
      case Err(e) => Err(e)
      case Ok(iv) => Ok((key, iv))
  }

  /** Both directions of TLS 1.3, write side first. */
  function Tls13Both(h: Handshake, hash: Hash, secretLen: nat, keyLen: nat)
    : (r: Result<((seq<byte>, seq<byte>), (seq<byte>, seq<byte>)), Error>)
    requires keyLen < 65536
    ensures r.Ok? ==>
      && |r.value.0.0| == |r.value.1.0| == keyLen && |r.value.0.1| == |r.value.1.1| == 12
  {
    match TrafficSecret(h.writeSecret, secretLen)
    case Err(e) => Err(e)
    case Ok(w) =>
      match TrafficSecret(h.readSecret, secretLen)
      case Err(e) => Err(e)
      case Ok(r) =>
        match Tls13Keys(h, hash, w, keyLen)
        case Err(e) => Err(e)
        case Ok(write) =>
          match Tls13Keys(h, hash, r, keyLen)
          case Err(e) => Err(e)
          case Ok(read) => Ok((write, read))
  }

  /** The four parts of a TLS 1.2 key block, seen from one endpoint. */
  datatype Parts = Parts(writeKey: seq<byte>, writeIv: seq<byte>, readKey: seq<byte>, readIv: seq<byte>)

  function SplitTls12KeyBlock(block: seq<byte>, keyLen: nat, ivLen: nat, server: bool): (p: Parts)
    requires |block| == 2 * (keyLen + ivLen)
    ensures |p.writeKey| == |p.readKey| == keyLen && |p.writeIv| == |p.readIv| == ivLen
  {
    var clientKey, rest := block[..keyLen], block[keyLen..];
    var serverKey, ivs := rest[..keyLen], rest[keyLen..];
    var clientIv, serverIv := ivs[..ivLen], ivs[ivLen..];
    if server then Parts(serverKey, serverIv, clientKey, clientIv)
    else Parts(clientKey, clientIv, serverKey, serverIv)
  }

  /** The parts tile the block in the order of section 6.3 of RFC 5246, and what one endpoint writes
      with is what the other reads with. */
  lemma KeyBlockAgreement(block: seq<byte>, keyLen: nat, ivLen: nat)
    requires |block| == 2 * (keyLen + ivLen)
    ensures var c, s := SplitTls12KeyBlock(block, keyLen, ivLen, false), SplitTls12KeyBlock(block, keyLen, ivLen, true);
      && block == c.writeKey + s.writeKey + c.writeIv + s.writeIv
      && c.writeKey == s.readKey && c.writeIv == s.readIv
      && s.writeKey == c.readKey && s.writeIv == c.readIv
  {
    var rest := block[keyLen..];
    assert block == block[..keyLen] + (rest[..keyLen] + (rest[keyLen..][..ivLen] + rest[keyLen..][ivLen..]));
  }

  function Tls12Parts(h: Handshake, keyLen: nat, ivLen: nat): (r: Result<Parts, Error>)
    ensures r.Ok? ==>
      |r.value.writeKey| == |r.value.readKey| == keyLen && |r.value.writeIv| == |r.value.readIv| == ivLen
  {
    match h.keyBlock
    case None => Err(Init("SSL_generate_key_block"))
    case Some(stream) => Ok(SplitTls12KeyBlock(Take(stream, 2 * (keyLen + ivLen)), keyLen, ivLen, h.server))
  }

  function DeriveTls13Gcm(h: Handshake, hash: Hash, secretLen: nat, keyLen: nat): Result<CryptoInfo, Error>
    requires keyLen == 16 || keyLen == 32
  {
    match Tls13Both(h, hash, secretLen, keyLen)
    case Err(e) => Err(e)
    case Ok(((wk, wi), (rk, ri))) =>
      Ok(CryptoInfo(
           BuildAesGcm(TLS_1_3_VERSION, keyLen, wk, wi[..4], wi[4..], h.writeSequence),
           BuildAesGcm(TLS_1_3_VERSION, keyLen, rk, ri[..4], ri[4..], h.readSequence)))
  }

  function DeriveTls12Gcm(h: Handshake, keyLen: nat): Result<CryptoInfo, Error>
    requires keyLen == 16 || keyLen == 32
  {
    match Tls12Parts(h, keyLen, 4)
    case Err(e) => Err(e)
    case Ok(p) =>
      Ok(CryptoInfo(
           BuildAesGcm(TLS_1_2_VERSION, keyLen, p.writeKey, p.writeIv, BigEndian(h.writeSequence, 8), h.writeSequence),
           BuildAesGcm(TLS_1_2_VERSION, keyLen, p.readKey, p.readIv, BigEndian(h.readSequence, 8), h.readSequence)))
  }

  /** `derive_crypto_info`. */
  function Derive(h: Handshake, cipher: KtlsCipher): Result<CryptoInfo, Error> {
    match cipher
    case Tls13Aes128Gcm => DeriveTls13Gcm(h, Sha256, 32, 16)
    case Tls13Aes256Gcm => DeriveTls13Gcm(h, Sha384, 48, 32)
    case Tls13Chacha20Poly1305 =>
      (match Tls13Both(h, Sha256, 32, 32)
       case Err(e) => Err(e)
       case Ok(((wk, wi), (rk, ri))) =>
         Ok(CryptoInfo(BuildChacha20Poly1305(TLS_1_3_VERSION, wk, wi, h.writeSequence),
                       BuildChacha20Poly1305(TLS_1_3_VERSION, rk, ri, h.readSequence))))
    case Tls12Aes128Gcm => DeriveTls12Gcm(h, 16)
    case Tls12Aes256Gcm => DeriveTls12Gcm(h, 32)
    case Tls12Chacha20Poly1305 =>
      match Tls12Parts(h, 32, 12)
      case Err(e) => Err(e)
      case Ok(p) =>
        Ok(CryptoInfo(BuildChacha20Poly1305(TLS_1_2_VERSION, p.writeKey, p.writeIv, h.writeSequence),
                      BuildChacha20Poly1305(TLS_1_2_VERSION, p.readKey, p.readIv, h.readSequence)))
  }

  /** The hash that goes with a TLS 1.3 cipher; its traffic secrets have the length of its output. */
  function HashOf(cipher: KtlsCipher): Hash {
    if cipher.Tls13Aes256Gcm? then Sha384 else Sha256
  }

  function HashLength(hash: Hash): nat {
    if hash.Sha384? then 48 else 32
  }

  /** One direction of TLS 1.3 can be derived: libssl has its secret, as long as the negotiated hash, and
      both expansions work. */
  ghost predicate Derivable(h: Handshake, cipher: KtlsCipher, secret: Option<seq<byte>>) {
    && secret.Some? && |secret.value| == HashLength(HashOf(cipher))
    && HkdfExpandLabel(h, HashOf(cipher), secret.value, KEY_LABEL, KeyLength(cipher)).Ok?
    && HkdfExpandLabel(h, HashOf(cipher), secret.value, IV_LABEL, 12).Ok?
  }

  /** Derivation succeeds exactly when every call it needs does. So a secret of the wrong length, in
      either direction, never reaches the kernel. */
  lemma DerivesExactlyWhen(h: Handshake, cipher: KtlsCipher)
    ensures Derive(h, cipher).Ok? <==>
              if IsTls13(cipher) then Derivable(h, cipher, h.writeSecret) && Derivable(h, cipher, h.readSecret)
              else h.keyBlock.Some?
  {
    hide Take, HkdfLabel, BigEndian, SplitTls12KeyBlock;
  }

  /** The two endpoints of one connection: the same secrets seen from either side. */
  ghost predicate Paired(client: Handshake, server: Handshake) {
    && !client.server && server.server
    && client.writeSecret == server.readSecret && client.readSecret == server.writeSecret
    && client.keyBlock == server.keyBlock && client.hkdf == server.hkdf
  }

  /** Key agreement: whenever both endpoints derive, each one's transmit block equals the other's
      receive block as soon as the paired sequence numbers agree, and up to those numbers always. */
  lemma EndpointsAgree(client: Handshake, server: Handshake, cipher: KtlsCipher)
    requires Paired(client, server)
    ensures Derive(client, cipher).Ok? <==> Derive(server, cipher).Ok?
    ensures Derive(client, cipher).Ok? ==>
      var c, s := Derive(client, cipher).value, Derive(server, cipher).value;
      && c.tx.key == s.rx.key && c.tx.salt == s.rx.salt
      && c.rx.key == s.tx.key && c.rx.salt == s.tx.salt
      && (client.writeSequence == server.readSequence ==> c.tx == s.rx)
      && (client.readSequence == server.writeSequence ==> c.rx == s.tx)
  {
    hide Take, HkdfLabel, BigEndian;
    match cipher {
      case Tls12Aes128Gcm =>
        if client.keyBlock.Some? { KeyBlockAgreement(Take(client.keyBlock.value, 40), 16, 4); }
      case Tls12Aes256Gcm =>
        if client.keyBlock.Some? { KeyBlockAgreement(Take(client.keyBlock.value, 72), 32, 4); }
      case Tls12Chacha20Poly1305 =>
        if client.keyBlock.Some? { KeyBlockAgreement(Take(client.keyBlock.value, 88), 32, 12); }
      case _ =>
    }
  }

  datatype Aead = Aes128Gcm | Aes256Gcm | Chacha20Poly1305

  function AeadOf(cipher: KtlsCipher): Aead {
    match cipher
    case Tls13Aes128Gcm | Tls12Aes128Gcm => Aes128Gcm
    case Tls13Aes256Gcm | Tls12Aes256Gcm => Aes256Gcm
    case Tls13Chacha20Poly1305 | Tls12Chacha20Poly1305 => Chacha20Poly1305
  }

  /** The block is the structure that `linux/tls.h` has for this AEAD: its cipher number, and every field
      of its length. */
  ghost predicate IsFor(b: Block, aead: Aead) {
    && |b.recSeq| == 8
    && match aead
       case Aes128Gcm => b.cipherType == 51 && |b.key| == 16 && |b.salt| == 4 && |b.iv| == 8
       case Aes256Gcm => b.cipherType == 52 && |b.key| == 32 && |b.salt| == 4 && |b.iv| == 8
       case Chacha20Poly1305 => b.cipherType == 54 && |b.key| == 32 && |b.salt| == 0 && |b.iv| == 12
  }

  /** The AEAD key length and whether the whole nonce is one IV, for each offloadable cipher. */
  function KeyLength(cipher: KtlsCipher): nat {
    if cipher.Tls13Aes128Gcm? || cipher.Tls12Aes128Gcm? then 16 else 32
  }

  predicate IsChacha(cipher: KtlsCipher) {
    cipher.Tls13Chacha20Poly1305? || cipher.Tls12Chacha20Poly1305?
  }

  predicate IsTls13(cipher: KtlsCipher) {
    cipher.Tls13Aes128Gcm? || cipher.Tls13Aes256Gcm? || cipher.Tls13Chacha20Poly1305?
  }

  /** A block holds the key and static IV of section 7.3 of RFC 8446, derived from `secret`: the
      kernel's salt followed by its iv is the 12-byte IV. */
  ghost predicate HoldsTls13(b: Block, h: Handshake, cipher: KtlsCipher, secret: Option<seq<byte>>) {
    && b.version == TLS_1_3_VERSION
    && secret.Some? && |secret.value| == HashLength(HashOf(cipher))
    && HkdfExpandLabel(h, HashOf(cipher), secret.value, KEY_LABEL, KeyLength(cipher)) == Ok(b.key)
    && HkdfExpandLabel(h, HashOf(cipher), secret.value, IV_LABEL, 12) == Ok(b.salt + b.iv)
  }

  /** A block holds the write key and write IV that section 6.3 of RFC 5246 gives to one endpoint. For
      AES-GCM the IV is the implicit nonce and the explicit one is the sequence number. */
  ghost predicate HoldsTls12(b: Block, h: Handshake, cipher: KtlsCipher, ofServer: bool, sequence: nat) {
    var ivLen := if IsChacha(cipher) then 12 else 4;
    && b.version == TLS_1_2_VERSION && h.keyBlock.Some?
    && var parts := SplitTls12KeyBlock(Take(h.keyBlock.value, 2 * (KeyLength(cipher) + ivLen)), KeyLength(cipher), ivLen, ofServer);
       && b.key == parts.writeKey
       && (if IsChacha(cipher) then b.iv == parts.writeIv && b.salt == []
           else b.salt == parts.writeIv && b.iv == BigEndian(sequence, 8))
  }

  /** Each direction gets its own material: transmit from this endpoint's write side, receive from the
      peer's, both seeded with libssl's next sequence numbers and sized for the kernel's structures. */
  lemma DirectionsAreRight(h: Handshake, cipher: KtlsCipher)
    requires Derive(h, cipher).Ok?
    ensures var info := Derive(h, cipher).value;
      && info.tx.recSeq == BigEndian(h.writeSequence, 8) && info.rx.recSeq == BigEndian(h.readSequence, 8)
      && |info.tx.key| == |info.rx.key| == KeyLength(cipher)
      && IsFor(info.tx, AeadOf(cipher)) && IsFor(info.rx, AeadOf(cipher))
      && info.tx.version == info.rx.version == (if IsTls13(cipher) then TLS_1_3_VERSION else TLS_1_2_VERSION)
      && (if IsTls13(cipher) then
            HoldsTls13(info.tx, h, cipher, h.writeSecret) && HoldsTls13(info.rx, h, cipher, h.readSecret)
          else
            && HoldsTls12(info.tx, h, cipher, h.server, h.writeSequence)
            && HoldsTls12(info.rx, h, cipher, !h.server, h.readSequence))
  {
    hide Take, HkdfLabel, BigEndian;
    var info := Derive(h, cipher).value;
    if IsTls13(cipher) {
      var both := Tls13Both(h, HashOf(cipher), HashLength(HashOf(cipher)), KeyLength(cipher));
      assert info.tx.salt + info.tx.iv == both.value.0.1;
      assert info.rx.salt + info.rx.iv == both.value.1.1;
    } else {
      var ivLen := if IsChacha(cipher) then 12 else 4;
      KeyBlockAgreement(Take(h.keyBlock.value, 2 * (KeyLength(cipher) + ivLen)), KeyLength(cipher), ivLen);
    }
  }
}

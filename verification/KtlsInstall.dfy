/** Attaching the kernel `tls` ULP and pushing the crypto-info blocks, receive direction first. */
module KtlsInstall {
  import opened Basics
  import opened CipherSuites
  import opened KeyMaterial

  const ENOENT := 2
  const EBUSY := 16
  const ENOPROTOOPT := 92
  const EISCONN := 106
  const ENOTCONN := 107

  datatype Side = Rx | Tx

  /** One connected socket. The kernel's answers are arbitrary; a rejected request changes nothing. */
  class KernelSocket {
    const ulpAnswer: IoResult
    const rxAnswer: IoResult
    const txAnswer: IoResult
    var ulp: bool
    var rx: Option<Block>
    var tx: Option<Block>

    constructor (ulpAnswer: IoResult, rxAnswer: IoResult, txAnswer: IoResult)
      ensures this.ulpAnswer == ulpAnswer && this.rxAnswer == rxAnswer && this.txAnswer == txAnswer
      ensures !ulp && rx.None? && tx.None?
    {
      this.ulpAnswer, this.rxAnswer, this.txAnswer := ulpAnswer, rxAnswer, txAnswer;
      ulp, rx, tx := false, None, None;
    }

    method SetUlpTls() returns (r: IoResult)
      modifies this`ulp
      ensures r == ulpAnswer && ulp == (old(ulp) || r.Ok?)
    {
      r := ulpAnswer;
      if r.Ok? {
        ulp := true;
      }
    }

    method SetCryptoInfo(side: Side, block: Block) returns (r: IoResult)
      requires ulp
      modifies this`rx, this`tx
      ensures r == if side.Rx? then rxAnswer else txAnswer
      ensures rx == if side.Rx? && r.Ok? then Some(block) else old(rx)
      ensures tx == if side.Tx? && r.Ok? then Some(block) else old(tx)
    {
      r := if side.Rx? then rxAnswer else txAnswer;
      if r.Ok? {
        if side.Rx? {
          rx := Some(block);
        } else {
          tx := Some(block);
        }
      }
    }
  }

  /** Which refusals of the ULP leave the connection usable in userspace. */
  function ClassifyUlpError(e: IoError): (k: KtlsError)
    ensures k.TlsUlpUnavailable? <==> e in {Os(ENOENT), Os(ENOPROTOOPT)}
    ensures k.SocketUnattachable? <==> e in {Os(ENOTCONN), Os(EISCONN), Os(EBUSY)}
    ensures k.TlsUlpUnavailable? || k.SocketUnattachable? || k.SetSockOpt?
    ensures k.error == e
  {
    match e.RawOsError()
    case Some(errno) =>
      if errno == ENOENT || errno == ENOPROTOOPT then TlsUlpUnavailable(e)
      else if errno == ENOTCONN || errno == EISCONN || errno == EBUSY then SocketUnattachable(e)
      else SetSockOpt(e)
    case None => SetSockOpt(e)
  }

  /** No such module, no such option, or a socket in a state that takes no ULP. */
  predicate IsBenign(e: IoError) {
    e.Os? && e.errno in {ENOENT, ENOPROTOOPT, ENOTCONN, EISCONN, EBUSY}
  }

  /** Errors after which `try_auto_install_ktls` keeps the stream on the userspace path. */
  predicate FallsBack(e: Error) {
    e.Ktls? && (e.error.NotSupported? || e.error.IneligibleCipher? || e.error.TlsUlpUnavailable?
                || e.error.SocketUnattachable? || e.error.CryptoUnavailable?)
  }

  /** Receive first: a refusal there leaves both directions inert, while a later refusal of transmit
      cannot be undone and is the one outcome with exactly one direction active. */
  method InstallRxThenTx(sock: KernelSocket, info: CryptoInfo) returns (r: Result<Unit, KtlsError>)
    requires sock.ulp && sock.rx.None? && sock.tx.None?
    modifies sock`rx, sock`tx
    ensures r.Ok? <==> sock.rxAnswer.Ok? && sock.txAnswer.Ok?
    ensures r.Ok? <==> sock.rx == Some(info.rx) && sock.tx == Some(info.tx)
    ensures r.Err? && r.error.CryptoUnavailable? <==> sock.rxAnswer.Err?
    ensures r.Err? && r.error.CryptoUnavailable? <==> sock.rx.None?
    ensures r.Err? && !r.error.CryptoUnavailable? ==> r.error.SetSockOpt?
    ensures sock.tx.Some? <==> r.Ok?
    // the refused direction's own error
    ensures sock.rxAnswer.Err? ==> r == Err(CryptoUnavailable(sock.rxAnswer.error))
    ensures sock.rxAnswer.Ok? && sock.txAnswer.Err? ==> r == Err(SetSockOpt(sock.txAnswer.error))
  {
    var rx := sock.SetCryptoInfo(Rx, info.rx);
    if rx.Err? {
      return Err(CryptoUnavailable(rx.error));
    }
    var tx := sock.SetCryptoInfo(Tx, info.tx);
    if tx.Err? {
      return Err(SetSockOpt(tx.error));
    }
    r := Ok(Unit);
  }

  /** `KtlsCipher::detect` on the negotiated version and suite. */
  function Detect(h: Handshake): Option<KtlsCipher> {
    if h.cipherId.None? then None else FromIds(h.version, h.cipherId.value)
  }

  /** The handshake negotiated this suite of the crate. */
  predicate Negotiated(s: CipherSuite, h: Handshake) {
    h.version == s.Version().Raw() && h.cipherId == Some(s.IanaId())
  }

  ghost predicate Eligible(h: Handshake) {
    exists s: CipherSuite :: Negotiated(s, h)
  }

  /** Something is detected exactly if the handshake negotiated a suite of the crate, and then it has the
      version and the AEAD of that suite. */
  lemma DetectExact(h: Handshake)
    ensures Detect(h).Some? <==> Eligible(h)
    ensures forall s: CipherSuite | Negotiated(s, h) ::
              && Detect(h).Some? && AeadOf(Detect(h).value) == s.Aead()
              && IsTls13(Detect(h).value) == s.Version().Tls13?
  {
    hide FromIds;
    if h.cipherId.Some? {
      SuitesAreTheOffloadableOnes(h.version, h.cipherId.value);
      if Detect(h).Some? {
        var s: CipherSuite :| s.Version().Raw() == h.version && s.IanaId() == h.cipherId.value;
        assert Negotiated(s, h);
      }
    }
  }

  /** The kernel holds blocks for the version and the AEAD that were negotiated, in both directions. */
  ghost predicate HoldsNegotiated(rx: Block, tx: Block, h: Handshake) {
    && Eligible(h) && rx.version == tx.version == h.version
    && forall s: CipherSuite | Negotiated(s, h) :: IsFor(rx, s.Aead()) && IsFor(tx, s.Aead())
  }

  lemma DerivedIsNegotiated(h: Handshake)
    requires Detect(h).Some? && Derive(h, Detect(h).value).Ok?
    ensures var info := Derive(h, Detect(h).value).value; HoldsNegotiated(info.rx, info.tx, h)
  {
    hide Derive, FromIds, IsFor, HoldsTls12, HoldsTls13, BigEndian;
    DetectExact(h);
    DirectionsAreRight(h, Detect(h).value);
    var s: CipherSuite :| Negotiated(s, h);
  }

  /** Everything that has to go right, in the order it is tried. */
  predicate Offloads(sock: KernelSocket, h: Handshake, linux: bool) {
    && linux && Detect(h).Some? && Derive(h, Detect(h).value).Ok?
    && sock.ulpAnswer.Ok? && sock.rxAnswer.Ok? && sock.txAnswer.Ok?
  }

  /** Exactly when the attempt is fatal to the connection: key derivation fails, the ULP refuses for a
      reason that does not classify as benign, or transmit is refused after receive was accepted. */
  predicate Condemns(sock: KernelSocket, h: Handshake, linux: bool) {
    && linux && Detect(h).Some?
    && (|| Derive(h, Detect(h).value).Err?
        || (sock.ulpAnswer.Err? && !IsBenign(sock.ulpAnswer.error))
        || (sock.ulpAnswer.Ok? && sock.rxAnswer.Ok? && sock.txAnswer.Err?))
  }

  /** The error that a condemned connection is given. */
  function Verdict(sock: KernelSocket, h: Handshake): Error
    requires Detect(h).Some?
  {
    match Derive(h, Detect(h).value)
    case Err(e) => e
    case Ok(_) =>
      Ktls(SetSockOpt(if sock.ulpAnswer.Err? then sock.ulpAnswer.error
                      else if sock.txAnswer.Err? then sock.txAnswer.error else Os(0)))
  }

  method InstallKtls(sock: KernelSocket, h: Handshake, linux: bool) returns (r: Result<Unit, Error>)
    requires !sock.ulp && sock.rx.None? && sock.tx.None?
    modifies sock
    ensures r.Ok? <==> Offloads(sock, h, linux)
    ensures r.Ok? <==> sock.rx.Some? && sock.tx.Some?
    ensures r.Ok? ==> Derive(h, Detect(h).value) == Ok(CryptoInfo(sock.tx.value, sock.rx.value))
    ensures r.Err? && FallsBack(r.error) ==> sock.rx.None? && sock.tx.None?
    ensures r.Err? && !FallsBack(r.error) <==> Condemns(sock, h, linux)
    ensures sock.tx.Some? ==> sock.rx.Some?
    ensures r.Ok? ==> HoldsNegotiated(sock.rx.value, sock.tx.value, h)
    // which error, in the order the steps are tried
    ensures r == Err(Ktls(IneligibleCipher)) <==> !Eligible(h)
    ensures r == Err(Ktls(NotSupported)) <==> Eligible(h) && !linux
    ensures linux && Eligible(h) ==>
              && Detect(h).Some?
              && match Derive(h, Detect(h).value)
                 case Err(e) => r == Err(e)
                 case Ok(_) =>
                   if sock.ulpAnswer.Err? then r == Err(Ktls(ClassifyUlpError(sock.ulpAnswer.error)))
                   else if sock.rxAnswer.Err? then r == Err(Ktls(CryptoUnavailable(sock.rxAnswer.error)))
                   else sock.txAnswer.Err? ==> r == Err(Ktls(SetSockOpt(sock.txAnswer.error)))
  {
    hide Derive, FromIds, HoldsNegotiated, ClassifyUlpError, Eligible;
    DetectExact(h);
    var cipher := Detect(h);
    if cipher.None? {
      return Err(Ktls(IneligibleCipher));
    }
    if !linux {
      return Err(Ktls(NotSupported));
    }
    var info := Derive(h, cipher.value);
    if info.Err? {
      DeriveFailsAsInit(h, cipher.value);
      return Err(info.error);
    }
    DerivedIsNegotiated(h);
    var ulp := sock.SetUlpTls();
    if ulp.Err? {
      return Err(Ktls(ClassifyUlpError(ulp.error)));
    }
    var installed := InstallRxThenTx(sock, info.value);
    r := match installed
      case Ok(_) => Ok(Unit)
      case Err(e) => Err(Ktls(e));
  }

  /** A failing derivation is never mistaken for a reason to fall back. */
  lemma DeriveFailsAsInit(h: Handshake, cipher: KtlsCipher)
    ensures Derive(h, cipher).Err? ==> Derive(h, cipher).error.Init?
  {
    hide Take, HkdfLabel, BigEndian, SplitTls12KeyBlock;
  }
}

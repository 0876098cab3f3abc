/** The receive stream across the switch from libssl to the kernel.

    The peer's records arrive back to back in one byte stream, cut anywhere by TCP. Record `i` of the
    epoch is sealed with sequence number `i`. libssl pulls bytes and opens records; once the socket is
    handed over, the kernel continues from the first byte that libssl has not pulled, counting records
    from the sequence number that the crypto-info block was seeded with. */
module Handoff {
  import opened Basics

  /** One sealed record: its size on the wire and the plaintext inside. */
  datatype Sealed = Sealed(size: nat, plaintext: seq<byte>)

  datatype Path = Userspace | Kernel(position: nat, sequence: nat)

  datatype State = State(
    pulled: nat,           // bytes libssl has taken from the socket
    sequence: nat,        // records libssl has opened, which is its read sequence number
    decrypted: seq<byte>,  // opened plaintext not read yet
    seen: seq<byte>,       // what the caller has received
    path: Path)

  datatype Step =
    | Pull(n: nat)
    | Open
    | HandOver(n: nat)
    | Install(seed: nat)
    | KernelOpen

  predicate IsPeer(peer: seq<Sealed>) {
    forall i | 0 <= i < |peer| :: peer[i].size > 0
  }

  /** Bytes taken by the first `k` records. */
  function Offset(peer: seq<Sealed>, k: nat): nat
    requires k <= |peer|
  {
    if k == 0 then 0 else Offset(peer, k - 1) + peer[k - 1].size
  }

  function Plaintext(peer: seq<Sealed>, k: nat): seq<byte>
    requires k <= |peer|
  {
    if k == 0 then [] else Plaintext(peer, k - 1) + peer[k - 1].plaintext
  }

  const START := State(0, 0, [], [], Userspace)

  /** `SSL_has_pending`: decrypted plaintext, or transport bytes beyond the last opened record. */
  predicate HasPending(peer: seq<Sealed>, s: State)
    requires s.sequence <= |peer|
  {
    s.decrypted != [] || s.pulled != Offset(peer, s.sequence)
  }

  /** The kernel can open what comes next: the record it has counted to, which was sealed with that
      number, starts exactly where it reads. */
  predicate CanOpen(peer: seq<Sealed>, position: nat, sequence: nat) {
    sequence < |peer| && Offset(peer, sequence) == position
  }

  predicate Enabled(peer: seq<Sealed>, s: State, step: Step) {
    match step
    case Pull(n) => s.path.Userspace? && s.pulled + n <= Offset(peer, |peer|)
    case Open => s.path.Userspace? && s.sequence < |peer| && Offset(peer, s.sequence + 1) <= s.pulled
    case HandOver(n) => s.path.Userspace? && n <= |s.decrypted|
    case Install(_) => s.path.Userspace?
    case KernelOpen => s.path.Kernel? && s.path.position < Offset(peer, |peer|)
  }

  /** The kernel reads on from the first byte libssl has not pulled, counting from the number that the
      receive block was seeded with. Nothing here says that this is a good moment or a good number. */
  function Switch(s: State, seed: nat): State {
    s.(path := Kernel(s.pulled, seed))
  }

  /** The discipline that the adapter has to keep: it switches only while libssl holds nothing, and seeds
      libssl's own read sequence number. */
  predicate Guarded(peer: seq<Sealed>, s: State, step: Step) {
    step.Install? ==> s.sequence <= |peer| && !HasPending(peer, s) && step.seed == s.sequence
  }

  /** `None` is a decryption failure: the kernel reads off a record boundary or under a wrong number. */
  function Apply(peer: seq<Sealed>, s: State, step: Step): Option<State>
    requires Enabled(peer, s, step)
  {
    match step
    case Pull(n) => Some(s.(pulled := s.pulled + n))
    case Open => Some(s.(sequence := s.sequence + 1, decrypted := s.decrypted + peer[s.sequence].plaintext))
    case HandOver(n) => Some(s.(seen := s.seen + s.decrypted[..n], decrypted := s.decrypted[n..]))
    case Install(seed) => Some(Switch(s, seed))
    case KernelOpen =>
      if CanOpen(peer, s.path.position, s.path.sequence) then
        var i := s.path.sequence;
        Some(s.(path := Kernel(s.path.position + peer[i].size, i + 1), seen := s.seen + peer[i].plaintext))
      else None
  }

  /** No gap and no repeat, on either path. */
  predicate Seamless(peer: seq<Sealed>, s: State) {
    match s.path
    case Userspace =>
      && s.sequence <= |peer| && Offset(peer, s.sequence) <= s.pulled <= Offset(peer, |peer|)
      && s.seen + s.decrypted == Plaintext(peer, s.sequence)
    case Kernel(position, sequence) =>
      && sequence <= |peer| && position == Offset(peer, sequence)
      && s.seen == Plaintext(peer, sequence)
  }

  lemma {:induction false} OffsetGrows(peer: seq<Sealed>, i: nat, j: nat)
    requires IsPeer(peer) && i <= j <= |peer|
    ensures Offset(peer, i) <= Offset(peer, j)
    ensures i < j ==> Offset(peer, i) < Offset(peer, j)
    decreases j
  {
    if i < j {
      OffsetGrows(peer, i, j - 1);
    }
  }

  /** The exact condition: handing the socket over with libssl's own number keeps the stream seamless if
      and only if libssl holds nothing buffered, and then no other number would do. */
  lemma SwitchIsSeamlessExactlyWhenNothingPending(peer: seq<Sealed>, s: State, seed: nat)
    requires IsPeer(peer) && s.path.Userspace? && Seamless(peer, s)
    ensures Seamless(peer, Switch(s, s.sequence)) <==> !HasPending(peer, s)
    ensures !HasPending(peer, s) ==> (Seamless(peer, Switch(s, seed)) <==> seed == s.sequence)
  {
    if s.seen == Plaintext(peer, s.sequence) {
      assert |s.seen + s.decrypted| == |s.seen| + |s.decrypted|;
    }
    if s.decrypted == [] {
      assert s.seen + s.decrypted == s.seen;
    }
    if seed <= |peer| && !HasPending(peer, s) {
      if seed < s.sequence { OffsetGrows(peer, seed, s.sequence); }
      if s.sequence < seed { OffsetGrows(peer, s.sequence, seed); }
    }
  }

  /** What goes wrong otherwise: with transport bytes left in libssl, or under another number, the kernel
      cannot open the first record it meets. */
  lemma UnguardedSwitchCannotOpen(peer: seq<Sealed>, s: State, seed: nat)
    requires IsPeer(peer) && s.path.Userspace? && Seamless(peer, s) && s.pulled < Offset(peer, |peer|)
    requires seed == s.sequence <==> s.pulled != Offset(peer, s.sequence)
    ensures Apply(peer, Switch(s, seed), KernelOpen).None?
  {
    if seed < s.sequence { OffsetGrows(peer, seed, s.sequence); }
    if s.sequence < seed <= |peer| { OffsetGrows(peer, s.sequence, seed); }
  }

  /** From a seamless state every disciplined step succeeds, the kernel's openings included, and stays
      seamless. */
  lemma StepStaysSeamless(peer: seq<Sealed>, s: State, step: Step)
    requires IsPeer(peer) && Seamless(peer, s) && Enabled(peer, s, step) && Guarded(peer, s, step)
    ensures Apply(peer, s, step).Some? && Seamless(peer, Apply(peer, s, step).value)
  {
    match step {
      case Pull(_) =>
      case Open =>
        OffsetGrows(peer, s.sequence + 1, |peer|);
        assert s.seen + (s.decrypted + peer[s.sequence].plaintext) == (s.seen + s.decrypted) + peer[s.sequence].plaintext;
      case HandOver(n) =>
        assert (s.seen + s.decrypted[..n]) + s.decrypted[n..] == s.seen + s.decrypted;
      case Install(seed) =>
        SwitchIsSeamlessExactlyWhenNothingPending(peer, s, seed);
      case KernelOpen =>
    }
  }

  /** The states of a schedule that ran without a decryption failure. */
  predicate IsRun(peer: seq<Sealed>, states: seq<State>, steps: seq<Step>) {
    && |states| == |steps| + 1 && states[0] == START
    && forall i | 0 <= i < |steps| ::
         Enabled(peer, states[i], steps[i]) && Apply(peer, states[i], steps[i]) == Some(states[i + 1])
  }

  predicate Disciplined(peer: seq<Sealed>, states: seq<State>, steps: seq<Step>)
    requires |states| == |steps| + 1
  {
    forall i | 0 <= i < |steps| :: Guarded(peer, states[i], steps[i])
  }

  lemma {:induction false} PlaintextPrefix(peer: seq<Sealed>, i: nat, j: nat)
    requires i <= j <= |peer|
    ensures Plaintext(peer, i) <= Plaintext(peer, j)
    decreases j
  {
    if i < j {
      PlaintextPrefix(peer, i, j - 1);
    }
  }

  /** The caller has seen a prefix of the peer's plaintext, nothing twice and nothing missing, and whatever
      disciplined step comes next, no record is met off its boundary or under a wrong number. */
  predicate GapFree(peer: seq<Sealed>, s: State) {
    && Seamless(peer, s)
    && s.seen <= Plaintext(peer, |peer|)
    && (s.path.Kernel? ==> (Enabled(peer, s, KernelOpen) <==> s.path.sequence < |peer|))
    && (Enabled(peer, s, KernelOpen) ==> Apply(peer, s, KernelOpen).Some?)
  }

  /** Gap-free handoff: in every run that keeps the discipline, for every way TCP coalesces the records
      with the handshake tail and wherever the switch happens. */
  lemma {:induction false} GapFreeHandoff(peer: seq<Sealed>, states: seq<State>, steps: seq<Step>, k: nat)
    requires IsPeer(peer) && IsRun(peer, states, steps) && Disciplined(peer, states, steps) && k < |states|
    ensures GapFree(peer, states[k])
  {
    if k > 0 {
      GapFreeHandoff(peer, states, steps, k - 1);
      StepStaysSeamless(peer, states[k - 1], steps[k - 1]);
    }
    var s := states[k];
    match s.path {
      case Userspace => PlaintextPrefix(peer, s.sequence, |peer|);
      case Kernel(position, sequence) =>
        PlaintextPrefix(peer, sequence, |peer|);
        OffsetGrows(peer, sequence, |peer|);
    }
  }

  /** There is no way back from the kernel, hence at most one switch in a run. */
  lemma {:induction false} NoWayBack(peer: seq<Sealed>, states: seq<State>, steps: seq<Step>, i: nat, j: nat)
    requires IsRun(peer, states, steps) && i <= j < |states| && states[i].path.Kernel?
    ensures states[j].path.Kernel?
    decreases j
  {
    if i < j {
      NoWayBack(peer, states, steps, i, j - 1);
    }
  }

  /** So a run whose switch, at step `n`, was disciplined is disciplined throughout. */
  lemma OneSwitch(peer: seq<Sealed>, states: seq<State>, steps: seq<Step>, n: nat)
    requires IsRun(peer, states, steps) && n < |steps| && steps[n].Install? && Guarded(peer, states[n], steps[n])
    ensures Disciplined(peer, states, steps)
  {
    hide Guarded;
    forall i | 0 <= i < |steps| ensures Guarded(peer, states[i], steps[i]) {
      if i < n && steps[i].Install? {
        NoWayBack(peer, states, steps, i + 1, n);
      } else if n < i {
        NoWayBack(peer, states, steps, n + 1, i);
      }
      if !steps[i].Install? {
        OnlyInstallsAreGuarded(peer, states[i], steps[i]);
      }
    }
  }

  lemma OnlyInstallsAreGuarded(peer: seq<Sealed>, s: State, step: Step)
    ensures !step.Install? ==> Guarded(peer, s, step)
  {
  }
}

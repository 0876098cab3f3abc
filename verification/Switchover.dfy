/** The adapter's install keeps the discipline that a gap-free handoff needs: `TryAutoInstallKtls`, the
    derivation behind it, and the receive stream of `Handoff`, composed. */
module Switchover {
  import opened Basics
  import opened Handoff
  import opened KeyMaterial
  import opened KtlsInstall
  import opened StreamLaws
  import opened TlsStream

  /** What libssl says about itself, in the receive state it is in: `SSL_has_pending` and
      `SSL_get_read_sequence`, a 64-bit number. */
  ghost predicate Tells(peer: seq<Sealed>, t: Handoff.State, h: Handshake, hasPending: bool) {
    && t.sequence <= |peer| && hasPending == HasPending(peer, t)
    && h.readSequence == t.sequence && h.readSequence < Pow256(8)
  }

  /** The number that the kernel takes out of a receive block. */
  function SeedOf(block: Block): nat {
    Value(block.recSeq)
  }

  lemma DerivedSeed(h: Handshake, cipher: KtlsCipher)
    requires Derive(h, cipher).Ok? && h.readSequence < Pow256(8)
    ensures SeedOf(Derive(h, cipher).value.rx) == h.readSequence
  {
    hide Derive, BigEndian, Value, Pow256, HoldsTls12, HoldsTls13;
    DirectionsAreRight(h, cipher);
    BigEndianRoundTrip(h.readSequence, 8);
  }

  /** `more` goes on from a run that had reached `states`: with the switch that the install made, if it made
      one, and with no other. */
  ghost predicate Continues(peer: seq<Sealed>, states: seq<Handoff.State>, steps: seq<Step>, made: seq<Step>,
                            more: seq<Handoff.State>, longer: seq<Step>) {
    && Handoff.IsRun(peer, more, longer) && states <= more && steps + made <= longer
    && forall i | |steps + made| <= i < |longer| :: !longer[i].Install?
  }

  /** Gap-free handoff for the adapter. Let libssl have received anything, cut in any way. If the install
      that follows leaves a usable stream, then wherever reading goes on from there, in userspace or in the
      kernel with the block that was pushed into it, every state is gap-free. */
  method InstallIsGapFree(stream: TlsStream, sock: KernelSocket, h: Handshake, linux: bool, hasPending: bool,
                          ghost peer: seq<Sealed>, ghost states: seq<Handoff.State>, ghost steps: seq<Step>)
    returns (r: Result<Unit, Error>, ghost made: seq<Step>)
    requires stream.Valid() && stream.View() == FRESH
    requires !sock.ulp && sock.rx.None? && sock.tx.None?
    requires IsPeer(peer) && Handoff.IsRun(peer, states, steps) && states[|steps|].path.Userspace?
    requires Tells(peer, states[|steps|], h, hasPending)
    modifies stream`ktlsActive, sock
    ensures stream.Valid()
    // the switch is made exactly if the stream says so, with the number in the block the kernel holds
    ensures r.Ok? && stream.ktlsActive ==> sock.rx.Some? && made == [Install(SeedOf(sock.rx.value))]
    ensures r.Ok? && !stream.ktlsActive ==> sock.rx.None? && made == []
    ensures r.Ok? && stream.ktlsActive ==>
              && Guarded(peer, states[|steps|], made[0])
              && Seamless(peer, Switch(states[|steps|], SeedOf(sock.rx.value)))
    ensures r.Ok? ==>
              forall more, longer, k: nat | Continues(peer, states, steps, made, more, longer) && k < |more| ::
                GapFree(peer, more[k])
  {
    hide Lawful, Derive, Handoff.IsRun, Seamless, HasPending, Guarded, GapFree, SeedOf, Pow256, Condemns, FromIds;
    made := [];
    r := stream.TryAutoInstallKtls(sock, h, linux, hasPending);
    if r.Ok? {
      if stream.ktlsActive {
        DerivedSeed(h, Detect(h).value);
        made := [Install(SeedOf(sock.rx.value))];
        SeedIsGuarded(peer, states, steps, h, hasPending, SeedOf(sock.rx.value));
      }
      forall more, longer, k: nat | Continues(peer, states, steps, made, more, longer) && k < |more|
        ensures GapFree(peer, more[k])
      {
        ContinuationIsGapFree(peer, states, steps, made, more, longer, k);
      }
    }
  }

  lemma SeedIsGuarded(peer: seq<Sealed>, states: seq<Handoff.State>, steps: seq<Step>,
                      h: Handshake, hasPending: bool, seed: nat)
    requires IsPeer(peer) && Handoff.IsRun(peer, states, steps) && states[|steps|].path.Userspace?
    requires Tells(peer, states[|steps|], h, hasPending) && !hasPending && seed == h.readSequence
    ensures Guarded(peer, states[|steps|], Install(seed))
    ensures Seamless(peer, Switch(states[|steps|], seed))
  {
    hide Seamless, HasPending, GapFree;
    UserspaceIsDisciplined(peer, states, steps);
    GapFreeHandoff(peer, states, steps, |steps|);
    GapFreeIsSeamless(peer, states[|steps|]);
    SwitchIsSeamlessExactlyWhenNothingPending(peer, states[|steps|], seed);
  }

  lemma GapFreeIsSeamless(peer: seq<Sealed>, s: Handoff.State)
    requires GapFree(peer, s)
    ensures Seamless(peer, s)
  {
  }

  /** A run still in userspace has not switched. */
  lemma UserspaceIsDisciplined(peer: seq<Sealed>, states: seq<Handoff.State>, steps: seq<Step>)
    requires Handoff.IsRun(peer, states, steps) && states[|steps|].path.Userspace?
    ensures Disciplined(peer, states, steps)
    ensures forall i | 0 <= i < |steps| :: !steps[i].Install?
  {
    forall i | 0 <= i < |steps| ensures !steps[i].Install? {
      if steps[i].Install? {
        NoWayBack(peer, states, steps, i + 1, |steps|);
      }
    }
  }

  lemma ContinuationIsGapFree(peer: seq<Sealed>, states: seq<Handoff.State>, steps: seq<Step>, made: seq<Step>,
                              more: seq<Handoff.State>, longer: seq<Step>, k: nat)
    requires IsPeer(peer) && Handoff.IsRun(peer, states, steps) && states[|steps|].path.Userspace?
    requires made == [] || (|made| == 1 && made[0].Install? && Guarded(peer, states[|steps|], made[0]))
    requires Continues(peer, states, steps, made, more, longer) && k < |more|
    ensures GapFree(peer, more[k])
  {
    hide Guarded, GapFree;
    UserspaceIsDisciplined(peer, states, steps);
    if made == [] {
      assert steps + made == steps;
      forall i | 0 <= i < |longer| ensures Guarded(peer, more[i], longer[i]) {
        if i < |steps| {
          assert longer[i] == steps[i];
        }
        OnlyInstallsAreGuarded(peer, more[i], longer[i]);
      }
    } else {
      assert longer[|steps|] == (steps + made)[|steps|] == made[0];
      OneSwitch(peer, more, longer, |steps|);
    }
    GapFreeHandoff(peer, more, longer, k);
  }
}

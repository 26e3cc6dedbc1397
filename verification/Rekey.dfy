/**
 A deliberate re-key (pkg/client/send.go ResetSession) in the two-party protocol
 of Sessions: one side discards what it holds for the other and establishes anew,
 saying so in the prekey block; both sides receive by cmd/devclient/session.go.
 */
module Rekey {
  import opened Collections
  import opened Sessions

  // ---------------------------------------------------------------------
  // The step
  // ---------------------------------------------------------------------

  /** Both sessions with the peer are dropped, its bundle is claimed, and the block says re-key. */
  function ResetFrom(own: Side, peer: Side, ephemeral: nat, body: Text, claim: Option<PrekeyId>): (r: (Side, Side)) {
    var id := peer.node.account;
    var bare := own.(node := own.node.(sessions := own.node.sessions - {id}, inbound := own.node.inbound - {id}));
    if peer.node.signed == 0 then (bare, peer)
    else
      var oneTime := if claim.Some? && claim.value in peer.pool then claim else None;
      var peer' := if oneTime.Some? then peer.(pool := peer.pool - {oneTime.value}) else peer;
      if own.node.signed == 0 then (bare, peer')
      else
        var session := Session(ephemeral, oneTime, peer.node.signed);
        var env := Envelope(Some(Prekey(ephemeral, oneTime, true, true)), session, body);
        (Sends(bare.(node := bare.node.(sessions := bare.node.sessions[id := session])), env), peer')
  }

  function Reset(net: Net, byLow: bool, body: Text, claim: Option<PrekeyId>): Net {
    if byLow then
      var (low, high) := ResetFrom(net.low, net.high, net.nextEphemeral, body, claim);
      Net(low, high, net.nextEphemeral + 1)
    else
      var (high, low) := ResetFrom(net.high, net.low, net.nextEphemeral, body, claim);
      Net(low, high, net.nextEphemeral + 1)
  }

  /** The session a re-key by this side makes. */
  function ResetSession(net: Net, byLow: bool, claim: Option<PrekeyId>): Session {
    var peer := SideOf(net, !byLow);
    Session(net.nextEphemeral, if claim.Some? && claim.value in peer.pool then claim else None, peer.node.signed)
  }

  /** Both sides have keys, so the claim succeeds. */
  predicate CanReset(net: Net) {
    net.low.node.signed > 0 && net.high.node.signed > 0
  }

  // ---------------------------------------------------------------------
  // What holds from the re-key on; own is the side that made it
  // ---------------------------------------------------------------------

  predicate SaysRekey(env: Envelope) {
    env.prekey.Some? && env.prekey.value.rekey
  }

  predicate SendsOn(side: Side, to: AccountId, s: Session) {
    to in side.node.sessions && side.node.sessions[to] == s
  }

  /** An envelope of own on its way to peer: the re-key itself, an older establishment, or no prekey block. */
  predicate OnItsWay(env: Envelope, s: Session, peer: Side) {
    env.prekey.Some? ==>
      var p := env.prekey.value;
      && (p.oneTime.Some? ==> p.oneTime.value in peer.node.prekeys && p.oneTime.value !in peer.pool)
      && if p.rekey then
           && p.wellFormed && env.session == s && p.ephemeral == s.ephemeral && p.oneTime == s.oneTime
           && 0 < s.signed <= peer.node.signed
         else env.session.ephemeral != s.ephemeral && (s.oneTime.Some? ==> p.oneTime != s.oneTime)
  }

  predicate Pending(own: Side) {
    exists i :: 0 <= i < |own.out| && SaysRekey(own.out[i])
  }

  predicate RekeyInv(own: Side, peer: Side, s: Session, next: nat) {
    && own.node.account != peer.node.account && peer.node.account in own.node.sessions && s.ephemeral < next
    && peer.pool <= peer.node.prekeys
    && (forall i :: 0 <= i < |own.out| ==> OnItsWay(own.out[i], s, peer))
    && (forall i :: 0 < i < |own.out| && own.out[i].prekey.Some? ==> SaysRekey(own.out[i]))
    && (forall i, j :: 0 <= i < j < |own.out| && SaysRekey(own.out[i]) ==> own.out[j].prekey.None?)
    && (!Pending(own) ==> forall i :: 0 <= i < |own.out| ==> own.out[i].prekey.None?)
    && (forall i :: 0 <= i < |peer.out| && peer.out[i].prekey.Some? ==>
          !peer.out[i].prekey.value.rekey && peer.out[i].session.ephemeral != s.ephemeral)
    && (Pending(own) ==> !SendsOn(peer, own.node.account, s))
  }

  predicate NetInv(net: Net, byLow: bool, s: Session) {
    RekeyInv(SideOf(net, byLow), SideOf(net, !byLow), s, net.nextEphemeral)
  }

  /** The step delivers to the re-keying side an establishment of its peer that it reads and lets win. */
  predicate Overtakes(own: Side, peer: Side) {
    peer.out != [] && Current(own.node, peer.out[0]) && Less(peer.node.account, own.node.account)
  }

  /** The step delivers the re-key to the peer, which has still the signed prekey it was made for. */
  predicate Adopts(own: Side, peer: Side) {
    own.out != [] && SaysRekey(own.out[0]) && own.out[0].session.signed == peer.node.signed
  }

  /** A step from (own, peer) to (own', peer'): what it does to the two sending sessions. */
  predicate Goes(own: Side, peer: Side, own': Side, peer': Side, s: Session, overtakes: bool, adopts: bool) {
    && own'.node.account == own.node.account && peer'.node.account == peer.node.account
    && (SendsOn(own', peer.node.account, s) <==> SendsOn(own, peer.node.account, s) && !overtakes)
    && (SendsOn(peer', own.node.account, s) <==> SendsOn(peer, own.node.account, s) || adopts)
  }

  lemma OwnSends(own: Side, peer: Side, s: Session, next: nat, body: Text, claim: Option<PrekeyId>)
    requires RekeyInv(own, peer, s, next)
    ensures var (own', peer') := SendFrom(own, peer, next, body, claim);
            RekeyInv(own', peer', s, next + 1) && Goes(own, peer, own', peer', s, false, false)
  {
    var (own', peer') := SendFrom(own, peer, next, body, claim);
    var n := |own.out|;
    assert forall i :: 0 <= i < n ==> own'.out[i] == own.out[i];
    assert own'.out[n].prekey.None?;
    if Pending(own') {
      var i :| 0 <= i < |own'.out| && SaysRekey(own'.out[i]);
      assert SaysRekey(own.out[i]);
    }
    if Pending(own) {
      var i :| 0 <= i < |own.out| && SaysRekey(own.out[i]);
      assert SaysRekey(own'.out[i]);
    }
  }

  /** Only the account, the sessions and the channel of own matter. */
  lemma OwnFrame(own: Side, own': Side, peer: Side, s: Session, next: nat)
    requires RekeyInv(own, peer, s, next) && own'.out == own.out
    requires own'.node.account == own.node.account && own'.node.sessions == own.node.sessions
    ensures RekeyInv(own', peer, s, next + 1) && Goes(own, peer, own', peer, s, false, false)
  {
    assert Pending(own') == Pending(own);
  }

  lemma PeerSends(own: Side, peer: Side, s: Session, next: nat, body: Text, claim: Option<PrekeyId>)
    requires RekeyInv(own, peer, s, next)
    ensures var (peer', own') := SendFrom(peer, own, next, body, claim);
            RekeyInv(own', peer', s, next + 1) && Goes(own, peer, own', peer', s, false, false)
  {
    var (peer', own') := SendFrom(peer, own, next, body, claim);
    OwnFrame(own, own', peer, s, next);
    if |peer'.out| > |peer.out| {
      PeerPushes(own', peer, peer', s, next + 1);
    }
  }

  lemma PeerPushes(own: Side, peer: Side, peer': Side, s: Session, next: nat)
    requires RekeyInv(own, peer, s, next) && |peer'.out| == |peer.out| + 1 && peer'.out[..|peer.out|] == peer.out
    requires var env := peer'.out[|peer.out|];
             env.prekey.Some? ==> !env.prekey.value.rekey && env.session.ephemeral != s.ephemeral
    requires peer'.node == peer.node.(sessions := peer'.node.sessions) && peer'.pool == peer.pool
    requires SendsOn(peer', own.node.account, s) <==> SendsOn(peer, own.node.account, s)
    ensures RekeyInv(own, peer', s, next)
  {
    assert forall i :: 0 <= i < |peer.out| ==> peer'.out[i] == peer.out[i];
    forall i | 0 <= i < |own.out| ensures OnItsWay(own.out[i], s, peer') {
      assert OnItsWay(own.out[i], s, peer);
    }
  }

  lemma OwnReceives(own: Side, peer: Side, s: Session, next: nat)
    requires RekeyInv(own, peer, s, next)
    ensures var (own', peer') := DeliverTo(own, peer);
            RekeyInv(own', peer', s, next) && Goes(own, peer, own', peer', s, Overtakes(own, peer), false)
  {
    var (own', peer') := DeliverTo(own, peer);
    assert forall i :: 0 <= i < |peer'.out| ==> peer'.out[i] == peer.out[i + 1];
  }

  /** What the peer's client makes of the next envelope. */
  lemma PeerReads(own: Side, peer: Side, s: Session, next: nat)
    requires RekeyInv(own, peer, s, next) && own.out != []
    ensures var node := Receive(peer.node, own.node.account, own.out[0]).0;
            var id := own.node.account;
            && node.account == peer.node.account && node.signed == peer.node.signed && node.prekeys <= peer.node.prekeys
            && (id in node.sessions && node.sessions[id] == s <==> SendsOn(peer, id, s) || Adopts(own, peer))
            && (forall k :: k in peer.node.prekeys && k !in node.prekeys ==>
                  own.out[0].prekey.Some? && own.out[0].prekey.value.oneTime == Some(k))
  {
    var env := own.out[0];
    assert OnItsWay(env, s, peer);
    if SaysRekey(env) {
      assert Respond(peer.node, env.prekey.value) == Session(s.ephemeral, s.oneTime, peer.node.signed);
    }
  }

  lemma PendingTail(own: Side, own': Side)
    requires own.out != [] && own'.out == own.out[1..]
    requires forall i, j :: 0 <= i < j < |own.out| && SaysRekey(own.out[i]) ==> own.out[j].prekey.None?
    ensures Pending(own) <==> SaysRekey(own.out[0]) || Pending(own')
    ensures SaysRekey(own.out[0]) ==> forall i :: 0 <= i < |own'.out| ==> own'.out[i].prekey.None?
  {
    if Pending(own') {
      var i :| 0 <= i < |own'.out| && SaysRekey(own'.out[i]);
      assert SaysRekey(own.out[i + 1]);
    }
    if Pending(own) && !SaysRekey(own.out[0]) {
      var i :| 0 <= i < |own.out| && SaysRekey(own.out[i]);
      assert SaysRekey(own'.out[i - 1]);
    }
    assert forall i :: 0 <= i < |own'.out| ==> own'.out[i] == own.out[i + 1];
  }

  lemma PeerReceives(own: Side, peer: Side, s: Session, next: nat)
    requires RekeyInv(own, peer, s, next)
    ensures var (peer', own') := DeliverTo(peer, own);
            RekeyInv(own', peer', s, next) && Goes(own, peer, own', peer', s, false, Adopts(own, peer))
  {
    if own.out != [] {
      var (peer', own') := DeliverTo(peer, own);
      PeerReads(own, peer, s, next);
      PendingTail(own, own');
      forall i | 0 <= i < |own'.out| ensures OnItsWay(own'.out[i], s, peer') {
        assert own'.out[i] == own.out[i + 1] && OnItsWay(own.out[i + 1], s, peer) && OnItsWay(own.out[0], s, peer);
        assert own.out[i + 1].prekey.Some? ==> SaysRekey(own.out[i + 1]);
      }
      assert forall i :: 0 <= i < |own'.out| ==> own'.out[i] == own.out[i + 1];
    }
  }

  lemma PeerKeys(own: Side, peer: Side, s: Session, next: nat, ids: set<PrekeyId>, id: PrekeyId)
    requires RekeyInv(own, peer, s, next)
    ensures var peer' := Upload(peer, ids);
            RekeyInv(own, peer', s, next) && Goes(own, peer, own, peer', s, false, false)
    ensures var peer' := SpendElsewhere(peer, id);
            RekeyInv(own, peer', s, next) && Goes(own, peer, own, peer', s, false, false)
  {
  }

  lemma OwnKeys(own: Side, peer: Side, s: Session, next: nat, ids: set<PrekeyId>, id: PrekeyId)
    requires RekeyInv(own, peer, s, next)
    ensures var own' := Upload(own, ids);
            RekeyInv(own', peer, s, next) && Goes(own, peer, own', peer, s, false, false)
    ensures var own' := SpendElsewhere(own, id);
            RekeyInv(own', peer, s, next) && Goes(own, peer, own', peer, s, false, false)
  {
    assert Pending(Upload(own, ids)) == Pending(own) == Pending(SpendElsewhere(own, id));
  }

  // ---------------------------------------------------------------------
  // Steps and runs
  // ---------------------------------------------------------------------

  predicate OvertakesAt(net: Net, byLow: bool, step: Step) {
    step == Deliver(byLow) && Overtakes(SideOf(net, byLow), SideOf(net, !byLow))
  }

  predicate AdoptsAt(net: Net, byLow: bool, step: Step) {
    step == Deliver(!byLow) && Adopts(SideOf(net, byLow), SideOf(net, !byLow))
  }

  /** The step goes as its two flags say, and keeps the invariant. */
  predicate GoesOn(net: Net, byLow: bool, s: Session, step: Step) {
    var net' := Apply(net, step);
    && NetInv(net', byLow, s)
    && Goes(SideOf(net, byLow), SideOf(net, !byLow), SideOf(net', byLow), SideOf(net', !byLow), s,
            OvertakesAt(net, byLow, step), AdoptsAt(net, byLow, step))
  }

  lemma SendGoes(net: Net, byLow: bool, s: Session, low: bool, body: Text, claim: Option<PrekeyId>)
    requires NetInv(net, byLow, s)
    ensures GoesOn(net, byLow, s, Send(low, body, claim))
  {
    var own, peer, next := SideOf(net, byLow), SideOf(net, !byLow), net.nextEphemeral;
    if low == byLow {
      OwnSends(own, peer, s, next, body, claim);
    } else {
      PeerSends(own, peer, s, next, body, claim);
    }
  }

  lemma DeliverGoes(net: Net, byLow: bool, s: Session, low: bool)
    requires NetInv(net, byLow, s)
    ensures GoesOn(net, byLow, s, Deliver(low))
  {
    var own, peer, next := SideOf(net, byLow), SideOf(net, !byLow), net.nextEphemeral;
    if low == byLow {
      OwnReceives(own, peer, s, next);
    } else {
      PeerReceives(own, peer, s, next);
    }
  }

  lemma KeysGo(net: Net, byLow: bool, s: Session, low: bool, ids: set<PrekeyId>, id: PrekeyId)
    requires NetInv(net, byLow, s)
    ensures GoesOn(net, byLow, s, UploadPrekeys(low, ids)) && GoesOn(net, byLow, s, SpentByOthers(low, id))
  {
    var own, peer, next := SideOf(net, byLow), SideOf(net, !byLow), net.nextEphemeral;
    if low == byLow {
      OwnKeys(own, peer, s, next, ids, id);
    } else {
      PeerKeys(own, peer, s, next, ids, id);
    }
  }

  lemma StepGoes(net: Net, byLow: bool, s: Session, step: Step)
    requires NetInv(net, byLow, s)
    ensures GoesOn(net, byLow, s, step)
  {
    match step
    case Send(low, body, claim) => SendGoes(net, byLow, s, low, body, claim);
    case Deliver(low) => DeliverGoes(net, byLow, s, low);
    case UploadPrekeys(low, ids) => KeysGo(net, byLow, s, low, ids, 0);
    case SpentByOthers(low, id) => KeysGo(net, byLow, s, low, {}, id);
  }

  /** Some step of the run lets an establishment of the peer win over the re-key. */
  predicate Overtaken(net: Net, byLow: bool, steps: seq<Step>) {
    steps != [] &&
    var n := |steps| - 1;
    Overtaken(net, byLow, steps[..n]) || OvertakesAt(Run(net, steps[..n]), byLow, steps[n])
  }

  /** Some step of the run delivers the re-key, and the peer had uploaded nothing before it. */
  predicate DeliveredInTime(net: Net, byLow: bool, steps: seq<Step>) {
    steps != [] &&
    var n := |steps| - 1;
    || DeliveredInTime(net, byLow, steps[..n])
    || (var out := SideOf(Run(net, steps[..n]), byLow).out;
        steps[n] == Deliver(!byLow) && out != [] && SaysRekey(out[0]) && Uploads(steps[..n], !byLow) == 0)
  }

  lemma SignedStep(net: Net, step: Step, low: bool)
    ensures SideOf(Apply(net, step), low).node.signed == SideOf(net, low).node.signed +
            if step.UploadPrekeys? && step.atLow == low then 1 else 0
  {
  }

  lemma {:induction false} SignedCount(net: Net, steps: seq<Step>, low: bool)
    ensures SideOf(Run(net, steps), low).node.signed == SideOf(net, low).node.signed + Uploads(steps, low)
  {
    if steps != [] {
      var n := |steps| - 1;
      SignedCount(net, steps[..n], low);
      SignedStep(Run(net, steps[..n]), steps[n], low);
    }
  }

  /** Right after the re-key. */
  predicate JustReset(net: Net, byLow: bool, s: Session) {
    var own, peer := SideOf(net, byLow), SideOf(net, !byLow);
    && NetInv(net, byLow, s) && s.signed == peer.node.signed
    && SendsOn(own, peer.node.account, s) && !SendsOn(peer, own.node.account, s)
  }

  lemma {:induction false} RekeyRun(net: Net, byLow: bool, s: Session, steps: seq<Step>)
    requires JustReset(net, byLow, s)
    ensures var net' := Run(net, steps);
            var own, peer := SideOf(net', byLow), SideOf(net', !byLow);
            && NetInv(net', byLow, s) && own.node.account == SideOf(net, byLow).node.account
            && peer.node.account == SideOf(net, !byLow).node.account
            && (SendsOn(own, peer.node.account, s) <==> !Overtaken(net, byLow, steps))
            && (SendsOn(peer, own.node.account, s) <==> DeliveredInTime(net, byLow, steps))
  {
    if steps != [] {
      var n := |steps| - 1;
      RekeyRun(net, byLow, s, steps[..n]);
      StepGoes(Run(net, steps[..n]), byLow, s, steps[n]);
      SignedCount(net, steps[..n], !byLow);
      InTime(Run(net, steps[..n]), byLow, s, steps[n]);
    }
  }

  lemma InTime(net: Net, byLow: bool, s: Session, step: Step)
    requires NetInv(net, byLow, s)
    ensures var own := SideOf(net, byLow);
            AdoptsAt(net, byLow, step) <==>
              step == Deliver(!byLow) && own.out != [] && SaysRekey(own.out[0])
              && s.signed == SideOf(net, !byLow).node.signed
  {
    var own := SideOf(net, byLow);
    assert own.out != [] ==> OnItsWay(own.out[0], s, SideOf(net, !byLow));
  }

  // ---------------------------------------------------------------------
  // What a re-key promises
  // ---------------------------------------------------------------------

  /** The two sides of any state of the protocol, whichever is the lower one. */
  lemma Unsettled(net: Net, byLow: bool)
    requires Sessions.Inv(net)
    ensures var own, peer := SideOf(net, byLow), SideOf(net, !byLow);
            && own.node.account != peer.node.account && Channels(own, peer, net.nextEphemeral)
            && (own.node.account in peer.node.sessions ==>
                  peer.node.sessions[own.node.account].ephemeral < net.nextEphemeral)
  {
    LessNotEqual(net.low.node.account, net.high.node.account);
  }

  lemma ResetSides(own: Side, peer: Side, next: nat, body: Text, claim: Option<PrekeyId>, s: Session)
    requires Channels(own, peer, next) && own.node.account != peer.node.account
    requires own.node.signed > 0 && peer.node.signed > 0
    requires own.node.account in peer.node.sessions ==> peer.node.sessions[own.node.account].ephemeral < next
    requires s == Session(next, if claim.Some? && claim.value in peer.pool then claim else None, peer.node.signed)
    ensures var (own', peer') := ResetFrom(own, peer, next, body, claim);
            && RekeyInv(own', peer', s, next + 1) && s.signed == peer'.node.signed
            && SendsOn(own', peer'.node.account, s) && !SendsOn(peer', own'.node.account, s)
  {
    var (own', peer') := ResetFrom(own, peer, next, body, claim);
    var n := |own.out|;
    assert forall i :: 0 <= i < n ==> own'.out[i] == own.out[i];
    assert SaysRekey(own'.out[n]);
    forall i | 0 <= i < |own'.out| ensures OnItsWay(own'.out[i], s, peer') {
      if i < n && own.out[i].prekey.Some? {
        assert Establishes(own.out[i], own.initiated.value, peer);
      }
    }
    forall i | 0 <= i < |peer'.out| && peer'.out[i].prekey.Some?
      ensures !peer'.out[i].prekey.value.rekey && peer'.out[i].session.ephemeral != s.ephemeral
    {
      assert peer'.out[i] == peer.out[i] && Establishes(peer.out[i], peer.initiated.value, own);
    }
  }

  lemma ResetView(net: Net, byLow: bool, body: Text, claim: Option<PrekeyId>)
    ensures var (own', peer') := ResetFrom(SideOf(net, byLow), SideOf(net, !byLow), net.nextEphemeral, body, claim);
            var reset := Reset(net, byLow, body, claim);
            && SideOf(reset, byLow) == own' && SideOf(reset, !byLow) == peer'
            && reset.nextEphemeral == net.nextEphemeral + 1
  {
  }

  lemma ResetStarts(net: Net, byLow: bool, body: Text, claim: Option<PrekeyId>)
    requires Sessions.Inv(net) && CanReset(net)
    ensures JustReset(Reset(net, byLow, body, claim), byLow, ResetSession(net, byLow, claim))
  {
    var own, peer, s := SideOf(net, byLow), SideOf(net, !byLow), ResetSession(net, byLow, claim);
    Unsettled(net, byLow);
    assert own.node.signed > 0 && peer.node.signed > 0;
    ResetView(net, byLow, body, claim);
    ResetSides(own, peer, net.nextEphemeral, body, claim, s);
  }

  /** Over every run with one deliberate re-key, made by either side at any time: both send on its session exactly if
      it was delivered before the peer uploaded prekeys again and no establishment of the peer has overtaken it. */
  lemma RekeyAgreesExactly(lowId: AccountId, highId: AccountId, front: seq<Step>, byLow: bool, body: Text,
                           claim: Option<PrekeyId>, back: seq<Step>)
    requires Less(lowId, highId) && CanReset(Run(Start(lowId, highId), front))
    ensures var before := Run(Start(lowId, highId), front);
            var reset := Reset(before, byLow, body, claim);
            Agree(Run(reset, back), ResetSession(before, byLow, claim)) <==>
              DeliveredInTime(reset, byLow, back) && !Overtaken(reset, byLow, back)
  {
    var before := Run(Start(lowId, highId), front);
    RunKeeps(lowId, highId, front);
    ResetStarts(before, byLow, body, claim);
    RekeyRun(Reset(before, byLow, body, claim), byLow, ResetSession(before, byLow, claim), back);
  }

  /** The peer holds a session and has no establishment under way. */
  predicate NoRace(own: Side, peer: Side) {
    own.node.account in peer.node.sessions && forall i :: 0 <= i < |peer.out| ==> peer.out[i].prekey.None?
  }

  lemma NoRaceSides(own: Side, peer: Side, next: nat, body: Text, claim: Option<PrekeyId>)
    requires NoRace(own, peer)
    ensures var (own', peer') := SendFrom(own, peer, next, body, claim); NoRace(own', peer')
    ensures var (peer', own') := SendFrom(peer, own, next, body, claim); NoRace(own', peer')
  {
  }

  lemma NoRaceDelivered(own: Side, peer: Side)
    requires NoRace(own, peer)
    ensures var (own', peer') := DeliverTo(own, peer); NoRace(own', peer')
    ensures var (peer', own') := DeliverTo(peer, own); NoRace(own', peer')
    ensures !Overtakes(own, peer)
  {
  }

  lemma NoRaceStep(net: Net, byLow: bool, step: Step)
    requires NoRace(SideOf(net, byLow), SideOf(net, !byLow))
    ensures var net' := Apply(net, step);
            NoRace(SideOf(net', byLow), SideOf(net', !byLow)) && !OvertakesAt(net, byLow, step)
  {
    var own, peer := SideOf(net, byLow), SideOf(net, !byLow);
    match step
    case Send(low, body, claim) => NoRaceSides(own, peer, net.nextEphemeral, body, claim);
    case Deliver(low) => NoRaceDelivered(own, peer);
    case _ =>
  }

  lemma {:induction false} NeverOvertaken(net: Net, byLow: bool, steps: seq<Step>)
    requires NoRace(SideOf(net, byLow), SideOf(net, !byLow))
    ensures var net' := Run(net, steps);
            NoRace(SideOf(net', byLow), SideOf(net', !byLow)) && !Overtaken(net, byLow, steps)
  {
    if steps != [] {
      var n := |steps| - 1;
      NeverOvertaken(net, byLow, steps[..n]);
      NoRaceStep(Run(net, steps[..n]), byLow, steps[n]);
    }
  }

  /** So where the peer held a session and had no establishment under way, as once both agree on any session, the
      re-key brings them together again exactly if it was delivered before the peer's next upload. */
  lemma RekeyReunites(lowId: AccountId, highId: AccountId, front: seq<Step>, byLow: bool, body: Text,
                      claim: Option<PrekeyId>, back: seq<Step>, t: Session)
    requires Less(lowId, highId) && CanReset(Run(Start(lowId, highId), front))
    requires Settled(Run(Start(lowId, highId), front)) && Agree(Run(Start(lowId, highId), front), t)
    ensures var before := Run(Start(lowId, highId), front);
            var reset := Reset(before, byLow, body, claim);
            Agree(Run(reset, back), ResetSession(before, byLow, claim)) <==> DeliveredInTime(reset, byLow, back)
  {
    var before := Run(Start(lowId, highId), front);
    RunKeeps(lowId, highId, front);
    RekeyAgreesExactly(lowId, highId, front, byLow, body, claim, back);
    QuietPeer(before, byLow, t);
    ResetKeepsPeer(before, byLow, body, claim);
    NeverOvertaken(Reset(before, byLow, body, claim), byLow, back);
  }

  lemma QuietPeer(net: Net, byLow: bool, t: Session)
    requires Sessions.Inv(net) && Settled(net) && Agree(net, t)
    ensures NoRace(SideOf(net, byLow), SideOf(net, !byLow))
  {
  }

  lemma ResetKeepsPeer(net: Net, byLow: bool, body: Text, claim: Option<PrekeyId>)
    requires NoRace(SideOf(net, byLow), SideOf(net, !byLow))
    ensures var reset := Reset(net, byLow, body, claim); NoRace(SideOf(reset, byLow), SideOf(reset, !byLow))
  {
  }

  /** What arrives on the session both send on is read. */
  lemma AgreedIsRead(net: Net, s: Session, low: bool)
    requires Agree(net, s) && SideOf(net, low).out != []
    requires var env := SideOf(net, low).out[0]; env.prekey.None? && env.session == s
    ensures var env := SideOf(net, low).out[0];
            Receive(SideOf(net, !low).node, SideOf(net, low).node.account, env).1 == Ok(env.body)
  {
  }

  // ---------------------------------------------------------------------
  // A re-key that does not reunite
  // ---------------------------------------------------------------------

  /** Both sides have initiated, neither has heard of the other. */
  function Crossed(lowId: AccountId, highId: AccountId): Net {
    var s, t := Session(0, None, 1), Session(1, None, 1);
    Net(NewSide(lowId).(node := Node(lowId, map[highId := t], map[], {}, 1), initiated := Some(t), sent := [0],
                        sentOn := [t], out := [Envelope(Some(Prekey(1, None, false, true)), t, 0)]),
        NewSide(highId).(node := Node(highId, map[lowId := s], map[], {}, 1), initiated := Some(s), sent := [0],
                         sentOn := [s], out := [Envelope(Some(Prekey(0, None, false, true)), s, 0)]), 2)
  }

  lemma CrossedRun(lowId: AccountId, highId: AccountId, front: seq<Step>)
    requires lowId != highId && |front| == 4 && front[0] == UploadPrekeys(true, {})
    requires front[1] == UploadPrekeys(false, {}) && front[2] == Send(false, 0, None) && front[3] == Send(true, 0, None)
    ensures Run(Start(lowId, highId), front) == Crossed(lowId, highId)
  {
    var net := Start(lowId, highId);
    RunNext(net, front, 0);
    RunNext(net, front, 1);
    RunNext(net, front, 2);
    RunNext(net, front, 3);
    assert front[..4] == front;
    var one := NewSide(lowId).(node := Node(lowId, map[], map[], {}, 1));
    var two := NewSide(highId).(node := Node(highId, map[], map[], {}, 1));
    assert Run(net, front[..2]) == Net(one, two, 0);
  }

  /** The higher side re-keys while the lower one's establishment is under way: the higher side then takes that over,
      the lower one the re-key, and they share no session any more. */
  lemma CrossedRekeySeparates(lowId: AccountId, highId: AccountId, t: Session)
    requires Less(lowId, highId)
    ensures var front := [UploadPrekeys(true, {}), UploadPrekeys(false, {}), Send(false, 0, None), Send(true, 0, None)];
            var reset := Reset(Run(Start(lowId, highId), front), false, 0, None);
            !Agree(Run(reset, [Deliver(false), Deliver(true), Deliver(true)]), t)
  {
    var front := [UploadPrekeys(true, {}), UploadPrekeys(false, {}), Send(false, 0, None), Send(true, 0, None)];
    LessNotEqual(lowId, highId);
    CrossedRun(lowId, highId, front);
    RunKeeps(lowId, highId, front);
    var before := Crossed(lowId, highId);
    ResetStarts(before, false, 0, None);
    var reset := Reset(before, false, 0, None);
    var back := [Deliver(false), Deliver(true), Deliver(true)];
    RekeyRun(reset, false, ResetSession(before, false, None), back);
    CrossedBack(lowId, highId, reset, back);
  }

  lemma CrossedBack(lowId: AccountId, highId: AccountId, reset: Net, back: seq<Step>)
    requires Less(lowId, highId) && lowId != highId && reset == Reset(Crossed(lowId, highId), false, 0, None)
    requires |back| == 3 && back[0] == Deliver(false) && back[1] == back[2] == Deliver(true)
    ensures Overtaken(reset, false, back) && DeliveredInTime(reset, false, back)
  {
    assert Run(reset, back[..0]) == reset;
    assert OvertakesAt(reset, false, back[0]);
    assert back[..1][..0] == back[..0] && back[..2][..1] == back[..1];
    assert back[..3] == back && back[..3][..2] == back[..2];
    assert Overtaken(reset, false, back[..1]);
    assert Overtaken(reset, false, back[..2]);
    RunNext(reset, back, 0);
    RunNext(reset, back, 1);
    assert Uploads(back[..1], true) == 0 && Uploads(back[..2], true) == 0;
  }
}

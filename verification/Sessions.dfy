/**
 X3DH session establishment in the development client
 (cmd/devclient/session.go), and the protocol two such clients run over FIFO
 channels. The ratchet is abstract: a session is the secret both sides derive,
 and decryption succeeds exactly when the envelope was encrypted with it.
 */
module Sessions {
  import opened Collections

  type AccountId = string
  type PrekeyId = nat

  /** Plaintexts, numbered. */
  type Text = nat

  /** The derived secret: the initiator's ephemeral key, the one-time prekey mixed in, and the responder's signed
      prekey. */
  datatype Session = Session(ephemeral: nat, oneTime: Option<PrekeyId>, signed: nat)

  /** The x3dh fields of an envelope; wellFormed is whether they parse. */
  datatype Prekey = Prekey(ephemeral: nat, oneTime: Option<PrekeyId>, rekey: bool, wellFormed: bool)

  datatype Envelope = Envelope(prekey: Option<Prekey>, session: Session, body: Text)

  datatype Error = BundleUnavailable | NoLocalKeys | MalformedPrekey | PrekeyDoesNotDecrypt | NoSession
    | NothingDecrypts

  type Result<T> = Collections.Result<T, Error>

  // ---------------------------------------------------------------------
  // One client
  // ---------------------------------------------------------------------

  /** signed counts the signed prekeys made so far, of which only the last is kept; without one there are no keys at
      all. */
  datatype Node = Node(
    account: AccountId,
    sessions: map<AccountId, Session>,
    inbound: map<AccountId, Session>,
    prekeys: set<PrekeyId>,
    signed: nat)

  /** What claiming a bundle yields to an initiator: a derived ephemeral, a one-time prekey if one was left, and the
      signed prekey uploaded last. */
  datatype Bundle = Bundle(ephemeral: nat, oneTime: Option<PrekeyId>, signed: nat)

  function Initiate(bundle: Bundle): Session {
    Session(bundle.ephemeral, bundle.oneTime, bundle.signed)
  }

  /** The prekey block of an ordinary establishment: never a re-key. */
  function InitialBlock(bundle: Bundle): Prekey {
    Prekey(bundle.ephemeral, bundle.oneTime, false, true)
  }

  /** The responder's derivation: the one-time prekey counts only while it is still held, the signed prekey is the
      current one. */
  function Respond(node: Node, p: Prekey): Session {
    Session(p.ephemeral, if p.oneTime.Some? && p.oneTime.value in node.prekeys then p.oneTime else None, node.signed)
  }

  function Uploaded(node: Node, ids: set<PrekeyId>): Node {
    node.(prekeys := node.prekeys + ids, signed := node.signed + 1)
  }

  function SpendPrekey(node: Node, p: Prekey): Node {
    if p.oneTime.Some? then node.(prekeys := node.prekeys - {p.oneTime.value}) else node
  }

  /** The sessions already held, tried in order: the sending one, then the one kept for reading. */
  function ReadWithHeld(node: Node, sender: AccountId, env: Envelope): Result<Text> {
    if sender in node.sessions && node.sessions[sender] == env.session then Ok(env.body)
    else if sender in node.inbound && node.inbound[sender] == env.session then Ok(env.body)
    else if sender !in node.sessions then Err(NoSession)
    else Err(NothingDecrypts)
  }

  function Adopt(node: Node, sender: AccountId, rekey: bool, derived: Session): Node {
    if sender !in node.sessions || rekey || Less(sender, node.account)
    then node.(sessions := node.sessions[sender := derived])
    else node.(inbound := node.inbound[sender := derived])
  }

  function Receive(node: Node, sender: AccountId, env: Envelope): (r: (Node, Result<Text>)) {
    if env.prekey.None? then (node, ReadWithHeld(node, sender, env))
    else
      var p := env.prekey.value;
      if !p.wellFormed || node.signed == 0 then
        var failure := if !p.wellFormed then MalformedPrekey else NoLocalKeys;
        (node, if sender in node.sessions then ReadWithHeld(node, sender, env) else Err(failure))
      else
        var derived := Respond(node, p);
        var spent := SpendPrekey(node, p);
        if derived == env.session then (Adopt(spent, sender, p.rekey, derived), Ok(env.body))
        else if sender !in node.sessions then (spent, Err(PrekeyDoesNotDecrypt))
        else (spent, ReadWithHeld(spent, sender, env))
  }

  class ClientState {
    const accountId: AccountId
    var sessions: map<AccountId, Session>
    var inboundSessions: map<AccountId, Session>
    var oneTimePrekeys: set<PrekeyId>
    var signedPrekeys: nat

    function Value(): Node
      reads this
    {
      Node(accountId, sessions, inboundSessions, oneTimePrekeys, signedPrekeys)
    }

    constructor (accountId: AccountId)
      ensures Value() == Node(accountId, map[], map[], {}, 0)
    {
      this.accountId := accountId;
      sessions, inboundSessions, oneTimePrekeys, signedPrekeys := map[], map[], {}, 0;
    }

    /** Every upload makes a new signed prekey and forgets the one before it. */
    method UploadPrekeys(ids: set<PrekeyId>)
      modifies this
      ensures Value() == Uploaded(old(Value()), ids)
    {
      signedPrekeys := signedPrekeys + 1;
      oneTimePrekeys := oneTimePrekeys + ids;
    }

    /** bundle is the answer of the claim request, or None when it failed. */
    method GetOrCreateSession(peer: AccountId, bundle: Option<Bundle>)
      returns (r: Result<(Session, Option<Prekey>)>)
      modifies this`sessions
      ensures peer in old(sessions) ==> sessions == old(sessions) && r == Ok((sessions[peer], None))
      ensures peer !in old(sessions) && bundle.None? ==> sessions == old(sessions) && r == Err(BundleUnavailable)
      ensures peer !in old(sessions) && bundle.Some? && signedPrekeys == 0 ==>
                sessions == old(sessions) && r == Err(NoLocalKeys)
      ensures peer !in old(sessions) && bundle.Some? && signedPrekeys > 0 ==>
                && sessions == old(sessions)[peer := Initiate(bundle.value)]
                && r == Ok((Initiate(bundle.value), Some(InitialBlock(bundle.value))))
    {
      if peer in sessions {
        return Ok((sessions[peer], None));
      }
      if bundle.None? {
        return Err(BundleUnavailable);
      }
      if signedPrekeys == 0 {
        return Err(NoLocalKeys);
      }
      var session := Initiate(bundle.value);
      sessions := sessions[peer := session];
      return Ok((session, Some(InitialBlock(bundle.value))));
    }

    method RespondToNewSession(p: Prekey) returns (r: Result<Session>)
      modifies this`oneTimePrekeys
      ensures !p.wellFormed ==> r == Err(MalformedPrekey) && Value() == old(Value())
      ensures p.wellFormed && signedPrekeys == 0 ==> r == Err(NoLocalKeys) && Value() == old(Value())
      ensures p.wellFormed && signedPrekeys > 0 ==>
                r == Ok(Respond(old(Value()), p)) && Value() == SpendPrekey(old(Value()), p)
    {
      if !p.wellFormed {
        return Err(MalformedPrekey);
      }
      if signedPrekeys == 0 {
        return Err(NoLocalKeys);
      }
      var held := None;
      if p.oneTime.Some? && p.oneTime.value in oneTimePrekeys {
        held := p.oneTime;
        oneTimePrekeys := oneTimePrekeys - {p.oneTime.value};
      }
      return Ok(Session(p.ephemeral, held, signedPrekeys));
    }

    method DecryptIncoming(sender: AccountId, env: Envelope) returns (r: Result<Text>)
      modifies this
      ensures (Value(), r) == Receive(old(Value()), sender, env)
    {
      var haveSession := sender in sessions;
      if env.prekey.Some? {
        var theirsWins := env.prekey.value.rekey || Less(sender, accountId);
        var derived := RespondToNewSession(env.prekey.value);
        if derived.Ok? && derived.value == env.session {
          if !haveSession || theirsWins {
            sessions := sessions[sender := derived.value];
          } else {
            inboundSessions := inboundSessions[sender := derived.value];
          }
          return Ok(env.body);
        }
        if !haveSession {
          return if derived.Err? then Err(derived.error) else Err(PrekeyDoesNotDecrypt);
        }
      }
      if haveSession && sessions[sender] == env.session {
        return Ok(env.body);
      }
      if sender in inboundSessions && inboundSessions[sender] == env.session {
        return Ok(env.body);
      }
      return if !haveSession then Err(NoSession) else Err(NothingDecrypts);
    }
  }

  /** The prekey block is read with the session derived from it. */
  predicate Current(node: Node, env: Envelope) {
    && env.prekey.Some? && env.prekey.value.wellFormed && node.signed > 0
    && Respond(node, env.prekey.value) == env.session
  }

  /** A readable prekey block becomes the sending session exactly if it is a re-key, or there was none, or the
      sender's account id is the lower one; otherwise it is kept for reading. Nobody else's sessions are touched. */
  lemma BlockAdoptedExactly(node: Node, sender: AccountId, env: Envelope, other: AccountId)
    requires Current(node, env) && other != sender
    ensures var (node', r) := Receive(node, sender, env);
            var wins := env.prekey.value.rekey || sender !in node.sessions || Less(sender, node.account);
            && r == Ok(env.body)
            && (if wins then sender in node'.sessions && node'.sessions[sender] == env.session
                else node'.sessions == node.sessions && sender in node'.inbound && node'.inbound[sender] == env.session)
            && (other in node'.sessions <==> other in node.sessions)
            && (other in node.sessions ==> node'.sessions[other] == node.sessions[other])
  {
  }

  /** What is read: a block with the session derived from it, or anything on a session held, though one kept for reading
      only is not tried for a failed block of a stranger. Which error else; and that what is not read this way changes
      no session. A one-time prekey is spent by every block that parses once there are keys. */
  lemma ReadExactly(node: Node, sender: AccountId, env: Envelope)
    ensures var (node', r) := Receive(node, sender, env);
            var have := sender in node.sessions;
            var parsed := env.prekey.Some? && env.prekey.value.wellFormed && node.signed > 0;
            && (r.Ok? <==>
                  || Current(node, env) || (have && node.sessions[sender] == env.session)
                  || (sender in node.inbound && node.inbound[sender] == env.session && (have || env.prekey.None?)))
            && (r.Ok? ==> r.value == env.body)
            && (r.Err? ==>
                  r.error == if have then NothingDecrypts else if env.prekey.None? then NoSession
                             else if !env.prekey.value.wellFormed then MalformedPrekey
                             else if node.signed == 0 then NoLocalKeys else PrekeyDoesNotDecrypt)
            && (!Current(node, env) ==> node'.sessions == node.sessions && node'.inbound == node.inbound)
            && node'.account == node.account && node'.signed == node.signed
            && (forall k :: k in node'.prekeys <==>
                  k in node.prekeys && !(parsed && env.prekey.value.oneTime == Some(k)))
  {
  }

  /** A redelivered prekey block whose one-time prekey is spent disturbs nothing. */
  lemma RedeliveredPrekeyIsHarmless(node: Node, sender: AccountId, env: Envelope)
    requires env.prekey.Some? && env.prekey.value.wellFormed && env.prekey.value.oneTime.Some?
    requires node.signed > 0
             && env.session == Session(env.prekey.value.ephemeral, env.prekey.value.oneTime, node.signed)
    requires env.prekey.value.oneTime.value in node.prekeys
    ensures var (once, r) := Receive(node, sender, env);
            r == Ok(env.body) && Receive(once, sender, env) == (once, Ok(env.body))
  {
    var once := Receive(node, sender, env).0;
    assert once.prekeys - {env.prekey.value.oneTime.value} == once.prekeys;
  }

  // ---------------------------------------------------------------------
  // Two clients and the channels between them
  // ---------------------------------------------------------------------

  /**
   One party: its client, the one-time prekeys its server still hands out, the
   envelopes on their way to the other side, and the history of the run: the session
   it initiated, what it sent on which session, what it made of what it received, and
   whether its prekey envelope met a signed prekey newer than the one it was made for.
   */
  datatype Side = Side(
    node: Node,
    pool: set<PrekeyId>,
    out: seq<Envelope>,
    initiated: Option<Session>,
    stale: bool,
    sent: seq<Text>,
    sentOn: seq<Session>,
    received: seq<Result<Text>>)

  /** low holds the smaller account id. */
  datatype Net = Net(low: Side, high: Side, nextEphemeral: nat)

  datatype Step =
    | Send(fromLow: bool, body: Text, claim: Option<PrekeyId>)
    | Deliver(toLow: bool)
    | UploadPrekeys(atLow: bool, ids: set<PrekeyId>)
    | SpentByOthers(atLow: bool, id: PrekeyId)

  function Sends(own: Side, env: Envelope): Side {
    own.(out := own.out + [env], sent := own.sent + [env.body], sentOn := own.sentOn + [env.session])
  }

  /** Without a session: the peer's bundle is claimed, if it has one, and used, if the sender has keys of its own. */
  function SendFrom(own: Side, peer: Side, ephemeral: nat, body: Text, claim: Option<PrekeyId>): (r: (Side, Side)) {
    if peer.node.account in own.node.sessions then
      (Sends(own, Envelope(None, own.node.sessions[peer.node.account], body)), peer)
    else if peer.node.signed == 0 then (own, peer)
    else
      var oneTime := if claim.Some? && claim.value in peer.pool then claim else None;
      var peer' := if oneTime.Some? then peer.(pool := peer.pool - {oneTime.value}) else peer;
      if own.node.signed == 0 then (own, peer')
      else
        var bundle := Bundle(ephemeral, oneTime, peer.node.signed);
        var session := Initiate(bundle);
        var node := own.node.(sessions := own.node.sessions[peer.node.account := session]);
        var env := Envelope(Some(InitialBlock(bundle)), session, body);
        (Sends(own.(node := node, initiated := Some(session)), env), peer')
  }

  /** The envelope's prekey block was made for a signed prekey that is no longer the current one. */
  predicate Outdated(node: Node, env: Envelope) {
    env.prekey.Some? && env.session.signed != node.signed
  }

  function DeliverTo(own: Side, peer: Side): (r: (Side, Side)) {
    if peer.out == [] then (own, peer)
    else
      var env := peer.out[0];
      var (node, result) := Receive(own.node, peer.node.account, env);
      (own.(node := node, received := own.received + [result]),
       peer.(out := peer.out[1..], stale := peer.stale || Outdated(own.node, env)))
  }

  /** One-time prekeys are never made twice. */
  function Upload(side: Side, ids: set<PrekeyId>): Side {
    var made := ids - side.node.prekeys;
    side.(node := Uploaded(side.node, made), pool := side.pool + made)
  }

  /** Some third account claims a one-time prekey and its establishment is processed. */
  function SpendElsewhere(side: Side, id: PrekeyId): Side {
    if id !in side.pool then side
    else side.(node := side.node.(prekeys := side.node.prekeys - {id}), pool := side.pool - {id})
  }

  function Apply(net: Net, step: Step): Net {
    match step
    case Send(true, body, claim) =>
      var (low, high) := SendFrom(net.low, net.high, net.nextEphemeral, body, claim);
      Net(low, high, net.nextEphemeral + 1)
    case Send(false, body, claim) =>
      var (high, low) := SendFrom(net.high, net.low, net.nextEphemeral, body, claim);
      Net(low, high, net.nextEphemeral + 1)
    case Deliver(true) =>
      var (low, high) := DeliverTo(net.low, net.high);
      net.(low := low, high := high)
    case Deliver(false) =>
      var (high, low) := DeliverTo(net.high, net.low);
      net.(low := low, high := high)
    case UploadPrekeys(atLow, ids) =>
      if atLow then net.(low := Upload(net.low, ids)) else net.(high := Upload(net.high, ids))
    case SpentByOthers(atLow, id) =>
      if atLow then net.(low := SpendElsewhere(net.low, id)) else net.(high := SpendElsewhere(net.high, id))
  }

  function Run(net: Net, steps: seq<Step>): Net {
    if steps == [] then net else Apply(Run(net, steps[..|steps| - 1]), steps[|steps| - 1])
  }

  function NewSide(account: AccountId): Side {
    Side(Node(account, map[], map[], {}, 0), {}, [], None, false, [], [], [])
  }

  function Start(lowId: AccountId, highId: AccountId): Net {
    Net(NewSide(lowId), NewSide(highId), 0)
  }

  // ---------------------------------------------------------------------
  // Invariant
  // ---------------------------------------------------------------------

  /** The side's prekey envelope is still on its way. */
  predicate PrekeyInFlight(side: Side) {
    side.out != [] && side.out[0].prekey.Some?
  }

  /** The side's own establishment arrived and was read. */
  predicate Accepted(side: Side) {
    side.initiated.Some? && !PrekeyInFlight(side) && !side.stale
  }

  /** An envelope that establishes session s at a responder that still holds the claimed one-time prekey. */
  predicate Establishes(env: Envelope, s: Session, responder: Side) {
    && env.prekey.Some? && env.prekey.value.wellFormed && !env.prekey.value.rekey
    && env.session == s && s.ephemeral == env.prekey.value.ephemeral && s.oneTime == env.prekey.value.oneTime
    && 0 < s.signed <= responder.node.signed
    && (s.oneTime.Some? ==> s.oneTime.value in responder.node.prekeys && s.oneTime.value !in responder.pool)
  }

  /** Only the first envelope ever sent may carry a prekey block, and then it establishes the sender's own session. */
  predicate ChannelShape(own: Side, peer: Side) {
    && (forall i :: 0 <= i < |own.out| && own.out[i].prekey.Some? ==>
          i == 0 && own.initiated.Some? && Establishes(own.out[i], own.initiated.value, peer))
    && (PrekeyInFlight(own) ==> peer.received == [] && !own.stale)
    && (own.stale ==> own.initiated.Some?)
  }

  /** Message i of own was sent on a session its peer never got to hold. */
  predicate Lost(own: Side, i: nat)
    requires i < |own.sentOn|
  {
    own.stale && own.initiated == Some(own.sentOn[i])
  }

  predicate ReadAs(own: Side, peer: Side, i: nat)
    requires i < |own.sent| && i < |own.sentOn| && i < |peer.received|
  {
    if Lost(own, i) then peer.received[i].Err? else peer.received[i] == Ok(own.sent[i])
  }

  predicate Bodies(own: Side, peer: Side) {
    && |own.sent| == |own.sentOn| == |peer.received| + |own.out|
    && (forall i :: 0 <= i < |peer.received| ==> ReadAs(own, peer, i))
    && (forall i :: 0 <= i < |own.out| ==> own.out[i].body == own.sent[|peer.received| + i])
    && (forall i :: 0 <= i < |own.out| ==> own.out[i].session == own.sentOn[|peer.received| + i])
  }

  predicate Fresh(side: Side, bound: nat) {
    && (side.initiated.Some? ==> side.initiated.value.ephemeral < bound)
    && side.pool <= side.node.prekeys
  }

  /** The low side sends on its own session if it initiated, else on the one it took over. */
  predicate LowInv(low: Side, high: Side) {
    var peer := high.node.account;
    && (peer in low.node.sessions <==> low.initiated.Some? || Accepted(high))
    && (peer in low.node.sessions ==>
          low.node.sessions[peer] == if low.initiated.Some? then low.initiated.value else high.initiated.value)
    && (peer in low.node.inbound <==> low.initiated.Some? && Accepted(high))
    && (peer in low.node.inbound ==> low.node.inbound[peer] == high.initiated.value)
    && (low.sent != [] ==> peer in low.node.sessions)
    && (forall i :: 0 <= i < |low.out| ==>
          peer in low.node.sessions && low.out[i].session == low.node.sessions[peer])
  }

  /** The high side sends on its own session until the low side's has been accepted. */
  predicate HighInv(low: Side, high: Side) {
    var peer := low.node.account;
    && (peer in high.node.sessions <==> high.initiated.Some? || Accepted(low))
    && (peer in high.node.sessions ==>
          high.node.sessions[peer] == if Accepted(low) then low.initiated.value else high.initiated.value)
    && peer !in high.node.inbound
    && (high.sent != [] ==> peer in high.node.sessions)
    && (forall i :: 0 <= i < |high.out| ==>
          || high.initiated == Some(high.out[i].session)
          || (Accepted(low) && low.initiated == Some(high.out[i].session)))
  }

  /** What the channels need, in both directions. */
  predicate Channels(own: Side, peer: Side, bound: nat) {
    && ChannelShape(own, peer) && ChannelShape(peer, own) && Bodies(own, peer) && Bodies(peer, own)
    && Fresh(own, bound) && Fresh(peer, bound)
  }

  predicate Apart(low: Side, high: Side) {
    low.initiated.Some? && high.initiated.Some? ==>
      low.initiated.value.ephemeral != high.initiated.value.ephemeral
  }

  predicate Inv(net: Net) {
    && Less(net.low.node.account, net.high.node.account)
    && Channels(net.low, net.high, net.nextEphemeral) && Apart(net.low, net.high)
    && LowInv(net.low, net.high) && HighInv(net.low, net.high)
  }

  lemma LessNotEqual(a: string, b: string)
    requires Less(a, b)
    ensures a != b && !Less(b, a)
  {
    LessIsStrictOrder(a, b);
  }

  /** own2 and peer2 agree with own and peer in what was sent and received. */
  predicate SameTraffic(own: Side, peer: Side, own2: Side, peer2: Side) {
    && own2.sent == own.sent && own2.sentOn == own.sentOn && own2.out == own.out
    && own2.stale == own.stale && own2.initiated == own.initiated && peer2.received == peer.received
  }

  lemma BodiesFrame(own: Side, peer: Side, own2: Side, peer2: Side)
    requires Bodies(own, peer) && SameTraffic(own, peer, own2, peer2)
    ensures Bodies(own2, peer2)
  {
    forall i | 0 <= i < |peer2.received| ensures ReadAs(own2, peer2, i) {
      assert ReadAs(own, peer, i);
    }
  }

  /** One more envelope on the channel; a first one may come with an initiated session. */
  lemma BodiesPush(own: Side, peer: Side, own': Side, env: Envelope)
    requires Bodies(own, peer) && (own.sent == [] || own'.initiated == own.initiated) && own'.stale == own.stale
    requires own'.out == own.out + [env] && own'.sent == own.sent + [env.body]
    requires own'.sentOn == own.sentOn + [env.session]
    ensures Bodies(own', peer)
  {
    forall i | 0 <= i < |peer.received| ensures ReadAs(own', peer, i) {
      assert ReadAs(own, peer, i);
      assert own'.sentOn[i] == own.sentOn[i] && own'.sent[i] == own.sent[i];
    }
  }

  /** A send on a held session. */
  lemma SendHeld(own: Side, peer: Side, bound: nat, body: Text)
    requires Channels(own, peer, bound) && peer.node.account in own.node.sessions
    ensures var own' := Sends(own, Envelope(None, own.node.sessions[peer.node.account], body));
            Channels(own', peer, bound + 1) && PrekeyInFlight(own') == PrekeyInFlight(own)
  {
    var env := Envelope(None, own.node.sessions[peer.node.account], body);
    var own' := Sends(own, env);
    BodiesPush(own, peer, own', env);
    BodiesFrame(peer, own, peer, own');
    assert forall i :: 0 <= i < |own.out| ==> own'.out[i] == own.out[i];
  }

  /** A claim that comes to nothing. */
  lemma ClaimOnly(own: Side, peer: Side, bound: nat, pool: set<PrekeyId>)
    requires Channels(own, peer, bound) && pool <= peer.pool
    ensures Channels(own, peer.(pool := pool), bound + 1)
  {
    BodiesFrame(own, peer, own, peer.(pool := pool));
    BodiesFrame(peer, own, peer.(pool := pool), own);
  }

  /** The first send of a side without a session. */
  lemma SendInitiates(own: Side, peer: Side, bound: nat, body: Text, oneTime: Option<PrekeyId>, own': Side, peer': Side)
    requires Channels(own, peer, bound) && own.sent == [] && own.initiated.None? && peer.node.signed > 0
    requires oneTime.Some? ==> oneTime.value in peer.pool
    requires peer' == if oneTime.Some? then peer.(pool := peer.pool - {oneTime.value}) else peer
    requires var bundle := Bundle(bound, oneTime, peer.node.signed);
             && own'.initiated == Some(Initiate(bundle)) && own'.stale == own.stale && own'.received == own.received
             && own'.pool == own.pool && own'.node.prekeys == own.node.prekeys && own'.node.signed == own.node.signed
             && own'.sent == [body] && own'.sentOn == [Initiate(bundle)]
             && own'.out == [Envelope(Some(InitialBlock(bundle)), Initiate(bundle), body)]
    ensures Channels(own', peer', bound + 1) && PrekeyInFlight(own')
  {
    var env := own'.out[0];
    assert own.out == [] && peer.received == [] && own.sentOn == [];
    assert own.out + [env] == [env] && own.sent + [body] == [body] && own.sentOn + [env.session] == [env.session];
    BodiesPush(own, peer, own', env);
    BodiesFrame(own', peer, own', peer');
    BodiesFrame(peer, own, peer', own');
    assert ChannelShape(own', peer');
    assert ChannelShape(peer', own');
  }

  /** A side that has sent or initiated holds a session. */
  predicate Speaks(own: Side, peer: Side) {
    own.sent != [] || own.initiated.Some? ==> peer.node.account in own.node.sessions
  }

  lemma SendChannels(own: Side, peer: Side, bound: nat, body: Text, claim: Option<PrekeyId>)
    requires Channels(own, peer, bound) && Speaks(own, peer)
    ensures var (own', peer') := SendFrom(own, peer, bound, body, claim); Channels(own', peer', bound + 1)
  {
    var (own', peer') := SendFrom(own, peer, bound, body, claim);
    var oneTime := if claim.Some? && claim.value in peer.pool then claim else None;
    if peer.node.account in own.node.sessions {
      SendHeld(own, peer, bound, body);
    } else if peer.node.signed == 0 || own.node.signed == 0 {
      ClaimOnly(own, peer, bound, peer'.pool);
    } else {
      SendInitiates(own, peer, bound, body, oneTime, own', peer');
    }
  }

  lemma SendLowKeeps(net: Net, body: Text, claim: Option<PrekeyId>)
    requires Inv(net)
    ensures Inv(Apply(net, Send(true, body, claim)))
  {
    SendChannels(net.low, net.high, net.nextEphemeral, body, claim);
    SendLowSides(net, body, claim);
  }

  lemma SendLowSides(net: Net, body: Text, claim: Option<PrekeyId>)
    requires Inv(net)
    ensures var (low, high) := SendFrom(net.low, net.high, net.nextEphemeral, body, claim);
            LowInv(low, high) && HighInv(low, high) && Apart(low, high)
  {
    LessNotEqual(net.low.node.account, net.high.node.account);
    if net.high.node.account in net.low.node.sessions {
      SendLowHeld(net, body);
    } else {
      SendLowFirst(net, body, claim);
    }
  }

  lemma SendLowHeld(net: Net, body: Text)
    requires Inv(net) && net.high.node.account in net.low.node.sessions
    ensures var env := Envelope(None, net.low.node.sessions[net.high.node.account], body);
            LowInv(Sends(net.low, env), net.high) && HighInv(Sends(net.low, env), net.high)
  {
    var low := Sends(net.low, Envelope(None, net.low.node.sessions[net.high.node.account], body));
    assert forall i :: 0 <= i < |net.low.out| ==> low.out[i] == net.low.out[i];
    assert Accepted(low) == Accepted(net.low);
  }

  lemma SendLowFirst(net: Net, body: Text, claim: Option<PrekeyId>)
    requires Inv(net) && net.high.node.account !in net.low.node.sessions
    requires net.low.node.account != net.high.node.account
    ensures var (low, high) := SendFrom(net.low, net.high, net.nextEphemeral, body, claim);
            LowInv(low, high) && HighInv(low, high) && Apart(low, high)
  {
    assert net.low.sent == [] && net.low.out == [];
  }

  lemma SendHighKeeps(net: Net, body: Text, claim: Option<PrekeyId>)
    requires Inv(net)
    ensures Inv(Apply(net, Send(false, body, claim)))
  {
    SendChannels(net.high, net.low, net.nextEphemeral, body, claim);
    SendHighSides(net, body, claim);
  }

  lemma SendHighSides(net: Net, body: Text, claim: Option<PrekeyId>)
    requires Inv(net)
    ensures var (high, low) := SendFrom(net.high, net.low, net.nextEphemeral, body, claim);
            LowInv(low, high) && HighInv(low, high) && Apart(low, high)
  {
    LessNotEqual(net.low.node.account, net.high.node.account);
    var (high, low) := SendFrom(net.high, net.low, net.nextEphemeral, body, claim);
    if high != net.high {
      assert forall i :: 0 <= i < |net.high.out| ==> high.out[i] == net.high.out[i];
      assert Accepted(high) == Accepted(net.high);
    }
    assert Accepted(low) == Accepted(net.low);
  }

  /** What will be made of the envelope that arrives next: it is readable unless its prekey block is outdated or it
      rides on a session whose establishment was. */
  predicate Unreadable(own: Side, peer: Side)
    requires own.out != []
  {
    Outdated(peer.node, own.out[0]) || (own.stale && own.initiated == Some(own.out[0].session))
  }

  lemma HeadDecrypts(net: Net)
    requires Inv(net)
    ensures net.low.out != [] ==>
              var env := net.low.out[0];
              var result := Receive(net.high.node, net.low.node.account, env).1;
              if Unreadable(net.low, net.high) then result.Err? else result == Ok(env.body)
    ensures net.high.out != [] ==>
              var env := net.high.out[0];
              var result := Receive(net.low.node, net.high.node.account, env).1;
              if Unreadable(net.high, net.low) then result.Err? else result == Ok(env.body)
  {
    LessNotEqual(net.low.node.account, net.high.node.account);
  }

  /** The head of the channel is filed as read, or as lost. */
  lemma BodiesPop(own: Side, peer: Side, own': Side, peer': Side)
    requires Bodies(peer, own) && ChannelShape(peer, own) && peer.out != []
    requires |own'.received| == |own.received| + 1 && own'.received[..|own.received|] == own.received
    requires var result := own'.received[|own.received|];
             if Unreadable(peer, own) then result.Err? else result == Ok(peer.out[0].body)
    requires peer' == peer.(out := peer.out[1..], stale := peer.stale || Outdated(own.node, peer.out[0]))
    ensures Bodies(peer', own')
  {
    var n := |own.received|;
    forall i | 0 <= i < |own'.received| ensures ReadAs(peer', own', i) {
      if i < n {
        assert ReadAs(peer, own, i) && own'.received[i] == own.received[i];
      } else {
        assert peer.sentOn[n] == peer.out[0].session && peer.sent[n] == peer.out[0].body;
      }
    }
    assert forall i :: 0 <= i < |peer'.out| ==> peer'.out[i] == peer.out[i + 1];
  }

  /** Delivering the head removes it and files what was made of it. */
  lemma DeliverEffect(own: Side, peer: Side, bound: nat)
    requires Channels(own, peer, bound) && peer.out != []
    requires var result := Receive(own.node, peer.node.account, peer.out[0]).1;
             if Unreadable(peer, own) then result.Err? else result == Ok(peer.out[0].body)
    ensures var (own', peer') := DeliverTo(own, peer); Channels(own', peer', bound)
  {
    var (own', peer') := DeliverTo(own, peer);
    BodiesPop(own, peer, own', peer');
    BodiesFrame(own, peer, own', peer');
    assert forall i :: 0 <= i < |peer'.out| ==> peer'.out[i] == peer.out[i + 1];
    DeliverShapes(own, peer);
  }

  lemma DeliverShapes(own: Side, peer: Side)
    requires ChannelShape(own, peer) && ChannelShape(peer, own) && peer.out != []
    ensures var (own', peer') := DeliverTo(own, peer);
            ChannelShape(own', peer') && ChannelShape(peer', own') && !PrekeyInFlight(peer')
  {
    var (own', peer') := DeliverTo(own, peer);
    assert forall i :: 0 <= i < |peer'.out| ==> peer'.out[i] == peer.out[i + 1];
  }

  lemma DeliverToHighKeeps(net: Net)
    requires Inv(net)
    ensures Inv(Apply(net, Deliver(false)))
  {
    if net.low.out != [] {
      HeadDecrypts(net);
      DeliverEffect(net.high, net.low, net.nextEphemeral);
      DeliverHighSides(net);
    }
  }

  lemma DeliverHighSides(net: Net)
    requires Inv(net) && net.low.out != []
    ensures var (high, low) := DeliverTo(net.high, net.low);
            LowInv(low, high) && HighInv(low, high) && Apart(low, high)
  {
    LessNotEqual(net.low.node.account, net.high.node.account);
    DeliverShapes(net.high, net.low);
    var (high, low) := DeliverTo(net.high, net.low);
    assert forall i :: 0 <= i < |low.out| ==> low.out[i] == net.low.out[i + 1];
    assert Accepted(high) == Accepted(net.high);
  }

  lemma DeliverToLowKeeps(net: Net)
    requires Inv(net)
    ensures Inv(Apply(net, Deliver(true)))
  {
    if net.high.out != [] {
      HeadDecrypts(net);
      DeliverEffect(net.low, net.high, net.nextEphemeral);
      DeliverLowSides(net);
    }
  }

  lemma DeliverLowSides(net: Net)
    requires Inv(net) && net.high.out != []
    ensures var (low, high) := DeliverTo(net.low, net.high);
            LowInv(low, high) && HighInv(low, high) && Apart(low, high)
  {
    LessNotEqual(net.low.node.account, net.high.node.account);
    DeliverShapes(net.low, net.high);
    var (low, high) := DeliverTo(net.low, net.high);
    assert forall i :: 0 <= i < |high.out| ==> high.out[i] == net.high.out[i + 1];
    assert Accepted(low) == Accepted(net.low);
  }

  /** own' is own with other keys, but still holding every claimed one-time prekey, and none older. */
  predicate PrekeyChange(own: Side, own': Side) {
    && own' == own.(node := own.node.(prekeys := own'.node.prekeys, signed := own'.node.signed), pool := own'.pool)
    && own'.pool <= own'.node.prekeys && own.node.signed <= own'.node.signed
    && forall k :: k in own.node.prekeys && k !in own.pool ==> k in own'.node.prekeys && k !in own'.pool
  }

  lemma ChangeChannels(own: Side, own': Side, peer: Side, bound: nat)
    requires Channels(own, peer, bound) && PrekeyChange(own, own')
    ensures Channels(own', peer, bound)
  {
    BodiesFrame(own, peer, own', peer);
    BodiesFrame(peer, own, peer, own');
  }

  lemma PrekeyChangeKeepsLow(net: Net, low: Side)
    requires Inv(net) && PrekeyChange(net.low, low)
    ensures Inv(net.(low := low))
  {
    ChangeChannels(net.low, low, net.high, net.nextEphemeral);
    assert Accepted(low) == Accepted(net.low);
  }

  lemma PrekeyChangeKeepsHigh(net: Net, high: Side)
    requires Inv(net) && PrekeyChange(net.high, high)
    ensures Inv(net.(high := high))
  {
    ChangeChannels(net.high, high, net.low, net.nextEphemeral);
    assert Accepted(high) == Accepted(net.high);
  }

  lemma PoolSteps(side: Side, ids: set<PrekeyId>, id: PrekeyId)
    requires side.pool <= side.node.prekeys
    ensures PrekeyChange(side, Upload(side, ids)) && PrekeyChange(side, SpendElsewhere(side, id))
  {
  }

  lemma StepKeeps(net: Net, step: Step)
    requires Inv(net)
    ensures Inv(Apply(net, step))
  {
    match step
    case Send(true, body, claim) => SendLowKeeps(net, body, claim);
    case Send(false, body, claim) => SendHighKeeps(net, body, claim);
    case Deliver(true) => DeliverToLowKeeps(net);
    case Deliver(false) => DeliverToHighKeeps(net);
    case UploadPrekeys(true, ids) =>
      PoolSteps(net.low, ids, 0);
      PrekeyChangeKeepsLow(net, Upload(net.low, ids));
    case UploadPrekeys(false, ids) =>
      PoolSteps(net.high, ids, 0);
      PrekeyChangeKeepsHigh(net, Upload(net.high, ids));
    case SpentByOthers(true, id) =>
      PoolSteps(net.low, {}, id);
      PrekeyChangeKeepsLow(net, SpendElsewhere(net.low, id));
    case SpentByOthers(false, id) =>
      PoolSteps(net.high, {}, id);
      PrekeyChangeKeepsHigh(net, SpendElsewhere(net.high, id));
  }

  lemma {:induction false} RunKeeps(lowId: AccountId, highId: AccountId, steps: seq<Step>)
    requires Less(lowId, highId)
    ensures Inv(Run(Start(lowId, highId), steps))
  {
    if steps != [] {
      var n := |steps| - 1;
      RunKeeps(lowId, highId, steps[..n]);
      StepKeeps(Run(Start(lowId, highId), steps[..n]), steps[n]);
    }
  }

  // ---------------------------------------------------------------------
  // What the protocol promises
  // ---------------------------------------------------------------------

  /** In every interleaving, each side has read what the other sent, in order, except what is in flight and, if the
      sender's establishment was outdated on arrival, exactly what it sent on that session. */
  lemma EachMessageIsReadExactly(lowId: AccountId, highId: AccountId, steps: seq<Step>)
    requires Less(lowId, highId)
    ensures var net := Run(Start(lowId, highId), steps);
            && |net.low.sent| == |net.low.sentOn| == |net.high.received| + |net.low.out|
            && |net.high.sent| == |net.high.sentOn| == |net.low.received| + |net.high.out|
            && (forall i :: 0 <= i < |net.high.received| ==> ReadAs(net.low, net.high, i))
            && (forall i :: 0 <= i < |net.low.received| ==> ReadAs(net.high, net.low, i))
  {
    RunKeeps(lowId, highId, steps);
  }

  /** So where no establishment was outdated, every delivered message decrypts. */
  lemma EveryDeliveredMessageDecrypts(lowId: AccountId, highId: AccountId, steps: seq<Step>)
    requires Less(lowId, highId)
    ensures var net := Run(Start(lowId, highId), steps);
            && |net.high.received| <= |net.low.sent| && |net.low.received| <= |net.high.sent|
            && (!net.low.stale ==>
                  forall i :: 0 <= i < |net.high.received| ==> net.high.received[i] == Ok(net.low.sent[i]))
            && (!net.high.stale ==>
                  forall i :: 0 <= i < |net.low.received| ==> net.low.received[i] == Ok(net.high.sent[i]))
  {
    RunKeeps(lowId, highId, steps);
    var net := Run(Start(lowId, highId), steps);
    forall i | 0 <= i < |net.high.received| && !net.low.stale ensures net.high.received[i] == Ok(net.low.sent[i]) {
      assert ReadAs(net.low, net.high, i);
    }
    forall i | 0 <= i < |net.low.received| && !net.high.stale ensures net.low.received[i] == Ok(net.high.sent[i]) {
      assert ReadAs(net.high, net.low, i);
    }
  }

  /** Every prekey envelope sent so far has been processed, and there was one. */
  predicate Settled(net: Net) {
    && (net.low.initiated.Some? || net.high.initiated.Some?)
    && !PrekeyInFlight(net.low) && !PrekeyInFlight(net.high)
  }

  /** Both sides send on this session. */
  predicate Agree(net: Net, s: Session) {
    && net.high.node.account in net.low.node.sessions && net.low.node.sessions[net.high.node.account] == s
    && net.low.node.account in net.high.node.sessions && net.high.node.sessions[net.low.node.account] == s
  }

  /** The side whose session is to win: the lower account if it initiated. */
  function Winner(net: Net): Side {
    if net.low.initiated.Some? then net.low else net.high
  }

  /** Once settled, both send on the winner's session, exactly if its establishment was not outdated on arrival;
      otherwise they share none. */
  lemma SessionsConverge(lowId: AccountId, highId: AccountId, steps: seq<Step>, s: Session)
    requires Less(lowId, highId)
    ensures var net := Run(Start(lowId, highId), steps);
            Settled(net) ==> (Agree(net, s) <==> !Winner(net).stale && Winner(net).initiated == Some(s))
  {
    RunKeeps(lowId, highId, steps);
  }

  /** And no later step of any kind unsettles it or moves either side off the agreed session. */
  lemma {:induction false} ConvergenceIsFinal(net: Net, s: Session, steps: seq<Step>)
    requires Inv(net) && Settled(net) && Agree(net, s)
    ensures Inv(Run(net, steps)) && Settled(Run(net, steps)) && Agree(Run(net, steps), s)
  {
    if steps != [] {
      var n := |steps| - 1;
      ConvergenceIsFinal(net, s, steps[..n]);
      SettledStep(Run(net, steps[..n]), s, steps[n]);
    }
  }

  lemma SettledStep(net: Net, s: Session, step: Step)
    requires Inv(net) && Settled(net) && Agree(net, s)
    ensures Inv(Apply(net, step)) && Settled(Apply(net, step)) && Agree(Apply(net, step), s)
  {
    StepKeeps(net, step);
    if step.Deliver? {
      SettledDeliver(net, step.toLow);
    }
  }

  lemma SettledDeliver(net: Net, toLow: bool)
    requires Inv(net) && Settled(net)
    ensures var net' := Apply(net, Deliver(toLow));
            && Settled(net') && net'.low.node == net.low.node && net'.high.node == net.high.node
  {
  }

  // ---------------------------------------------------------------------
  // What makes an establishment outdated
  // ---------------------------------------------------------------------

  function SideOf(net: Net, low: bool): Side {
    if low then net.low else net.high
  }

  /** Prekey uploads of one side among the steps. */
  function Uploads(steps: seq<Step>, low: bool): nat {
    if steps == [] then 0
    else
      var last := steps[|steps| - 1];
      Uploads(steps[..|steps| - 1], low) + if last.UploadPrekeys? && last.atLow == low then 1 else 0
  }

  /** An initiated session stays, what was sent stays, and only uploads make signed prekeys. */
  predicate Moves(side: Side, side': Side, uploads: nat) {
    && side'.node.signed == side.node.signed + uploads && side.sent <= side'.sent
    && (side.initiated.Some? ==> side'.initiated == side.initiated)
  }

  lemma SendMoves(own: Side, peer: Side, ephemeral: nat, body: Text, claim: Option<PrekeyId>)
    requires Speaks(own, peer)
    ensures var (own', peer') := SendFrom(own, peer, ephemeral, body, claim);
            Moves(own, own', 0) && Moves(peer, peer', 0)
  {
  }

  lemma DeliverMoves(own: Side, peer: Side)
    ensures var (own', peer') := DeliverTo(own, peer); Moves(own, own', 0) && Moves(peer, peer', 0)
  {
  }

  lemma StepMoves(net: Net, step: Step, low: bool)
    requires Inv(net)
    ensures Moves(SideOf(net, low), SideOf(Apply(net, step), low),
                  if step.UploadPrekeys? && step.atLow == low then 1 else 0)
  {
    match step
    case Send(true, body, claim) => SendMoves(net.low, net.high, net.nextEphemeral, body, claim);
    case Send(false, body, claim) => SendMoves(net.high, net.low, net.nextEphemeral, body, claim);
    case Deliver(true) => DeliverMoves(net.low, net.high);
    case Deliver(false) => DeliverMoves(net.high, net.low);
    case _ =>
  }

  lemma {:induction false} RunMoves(net: Net, steps: seq<Step>, low: bool)
    requires Inv(net)
    ensures Inv(Run(net, steps))
    ensures Moves(SideOf(net, low), SideOf(Run(net, steps), low), Uploads(steps, low))
  {
    if steps != [] {
      var n := |steps| - 1;
      RunMoves(net, steps[..n], low);
      StepKeeps(Run(net, steps[..n]), steps[n]);
      StepMoves(Run(net, steps[..n]), steps[n], low);
    }
  }

  lemma {:induction false} RunConcat(net: Net, front: seq<Step>, back: seq<Step>)
    ensures Run(net, front + back) == Run(Run(net, front), back)
  {
    if back == [] {
      assert front + back == front;
    } else {
      var n := |back| - 1;
      RunConcat(net, front, back[..n]);
      assert (front + back)[..|front| + n] == front + back[..n] && (front + back)[|front| + n] == back[n];
      RunLast(net, front + back);
      RunLast(Run(net, front), back);
    }
  }

  lemma RunLast(net: Net, steps: seq<Step>)
    requires steps != []
    ensures Run(net, steps) == Apply(Run(net, steps[..|steps| - 1]), steps[|steps| - 1])
  {
  }

  /** The send that initiates: what it leaves on the channel. */
  lemma Initiates(net: Net, low: bool, body: Text, claim: Option<PrekeyId>)
    requires Inv(net) && SideOf(net, low).initiated.None?
    requires SideOf(Apply(net, Send(low, body, claim)), low).initiated.Some?
    ensures var after := Apply(net, Send(low, body, claim));
            && SideOf(after, low).sent == [body]
            && SideOf(after, low).initiated.value.signed == SideOf(after, !low).node.signed
  {
  }

  lemma HeadIsFirst(net: Net, low: bool)
    requires Inv(net) && PrekeyInFlight(SideOf(net, low))
    ensures var own, peer := SideOf(net, low), SideOf(net, !low);
            && own.sent != [] && own.out[0].body == own.sent[0]
            && own.initiated == Some(own.out[0].session)
            && (Receive(peer.node, own.node.account, own.out[0]).1 == Ok(own.out[0].body)
                <==> own.out[0].session.signed == peer.node.signed)
  {
    HeadDecrypts(net);
  }

  /** In every run, a prekey envelope is read on arrival exactly if its responder uploaded no prekeys since the
      claim. */
  lemma PrekeyReadExactly(lowId: AccountId, highId: AccountId, front: seq<Step>, low: bool, body: Text,
                          claim: Option<PrekeyId>, middle: seq<Step>)
    requires Less(lowId, highId)
    requires var before := Run(Start(lowId, highId), front);
             && SideOf(before, low).initiated.None?
             && SideOf(Apply(before, Send(low, body, claim)), low).initiated.Some?
    requires PrekeyInFlight(SideOf(Run(Start(lowId, highId), front + [Send(low, body, claim)] + middle), low))
    ensures var net := Run(Start(lowId, highId), front + [Send(low, body, claim)] + middle);
            var own, peer := SideOf(net, low), SideOf(net, !low);
            Receive(peer.node, own.node.account, own.out[0]).1 == Ok(body) <==> Uploads(middle, !low) == 0
  {
    var before := Run(Start(lowId, highId), front);
    var send := Send(low, body, claim);
    var after := Apply(before, send);
    RunKeeps(lowId, highId, front);
    StepKeeps(before, send);
    RunConcat(Start(lowId, highId), front, [send]);
    assert [send][..0] == [];
    assert Run(before, [send]) == after;
    RunConcat(Start(lowId, highId), front + [send], middle);
    Initiates(before, low, body, claim);
    RunMoves(after, middle, low);
    RunMoves(after, middle, !low);
    HeadIsFirst(Run(after, middle), low);
  }

  /** The run: the responder uploads again between the claim and the delivery. */
  lemma UploadBetweenLosesTheSession(lowId: AccountId, highId: AccountId, body: Text)
    requires Less(lowId, highId)
    ensures var steps := [UploadPrekeys(true, {}), UploadPrekeys(false, {}), Send(true, body, None),
                          UploadPrekeys(false, {}), Deliver(false)];
            var net := Run(Start(lowId, highId), steps);
            net.high.received == [Err(PrekeyDoesNotDecrypt)] && net.low.stale
  {
    var steps := [UploadPrekeys(true, {}), UploadPrekeys(false, {}), Send(true, body, None),
                  UploadPrekeys(false, {}), Deliver(false)];
    LessNotEqual(lowId, highId);
    var s := Session(0, None, 1);
    var env := Envelope(Some(Prekey(0, None, false, true)), s, body);
    var low := NewSide(lowId).(node := Node(lowId, map[highId := s], map[], {}, 1), out := [env], initiated := Some(s),
                               sent := [body], sentOn := [s]);
    var high := NewSide(highId).(node := Node(highId, map[], map[], {}, 2));
    FourSteps(lowId, highId, steps, body);
    assert Run(Start(lowId, highId), steps[..4]) == Net(low, high, 1);
  }

  lemma RunNext(net: Net, steps: seq<Step>, k: nat)
    requires k < |steps|
    ensures Run(net, steps[..k + 1]) == Apply(Run(net, steps[..k]), steps[k])
  {
    assert steps[..k + 1][..k] == steps[..k];
  }

  lemma FourSteps(lowId: AccountId, highId: AccountId, steps: seq<Step>, body: Text)
    requires lowId != highId && |steps| >= 4 && steps[0] == UploadPrekeys(true, {})
    requires steps[1] == UploadPrekeys(false, {}) && steps[2] == Send(true, body, None)
    requires steps[3] == UploadPrekeys(false, {})
    ensures var s := Session(0, None, 1);
            var env := Envelope(Some(Prekey(0, None, false, true)), s, body);
            var low := NewSide(lowId).(node := Node(lowId, map[highId := s], map[], {}, 1), out := [env],
                                       initiated := Some(s), sent := [body], sentOn := [s]);
            var high := NewSide(highId).(node := Node(highId, map[], map[], {}, 2));
            Run(Start(lowId, highId), steps[..4]) == Net(low, high, 1)
  {
    var net := Start(lowId, highId);
    RunNext(net, steps, 0);
    RunNext(net, steps, 1);
    RunNext(net, steps, 2);
    RunNext(net, steps, 3);
    var one := NewSide(lowId).(node := Node(lowId, map[], map[], {}, 1));
    var two := NewSide(highId).(node := Node(highId, map[], map[], {}, 1));
    assert Run(net, steps[..2]) == Net(one, two, 0);
  }
}

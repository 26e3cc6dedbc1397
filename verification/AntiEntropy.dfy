/**
 Reconciliation between two members who both hold a group's genesis
 (pkg/client/groupsend.go ReconcileGroup, pkg/client/groups.go
 markGroupHashAnswered) over in-order channels. The state hash is injective, so
 an envelope's hash is represented by the fact set it fingerprints.
 */
module AntiEntropy {
  import opened Collections

  /** Facts, numbered. */
  type Fact = nat

  /** The facts an envelope carries, and the sender's whole view when it was sent. */
  datatype Envelope = Envelope(events: set<Fact>, hash: set<Fact>)

  /**
   facts and answered are the client's stored state (answered: the last hash of
   the peer that a snapshot was sent in reply to). The rest is history: what is
   under way, every hash answered, the last hash stated and the last one heard.
   */
  datatype Peer = Peer(
    facts: set<Fact>, answered: Option<set<Fact>>, out: seq<Envelope>,
    answers: seq<set<Fact>>, stated: Option<set<Fact>>, heard: Option<set<Fact>>)

  datatype Pair = Pair(left: Peer, right: Peer)

  datatype Step =
    | Say(fromLeft: bool)
    | Mint(fromLeft: bool, fact: Fact)
    | Deliver(toLeft: bool)

  function Post(p: Peer, events: set<Fact>): Peer {
    p.(out := p.out + [Envelope(events, p.facts)], stated := Some(p.facts))
  }

  /** Fold the envelope, then answer a foreign hash with a snapshot unless it was the last one answered. */
  function Handle(p: Peer, env: Envelope): Peer {
    var folded := p.(facts := p.facts + env.events, heard := Some(env.hash));
    if env.hash == folded.facts || p.answered == Some(env.hash) then folded
    else Post(folded.(answered := Some(env.hash), answers := p.answers + [env.hash]), folded.facts)
  }

  function DeliverTo(own: Peer, peer: Peer): (r: (Peer, Peer)) {
    if peer.out == [] then (own, peer)
    else (Handle(own, peer.out[0]), peer.(out := peer.out[1..]))
  }

  function Apply(s: Pair, step: Step): Pair {
    match step
    case Say(true) => s.(left := Post(s.left, {}))
    case Say(false) => s.(right := Post(s.right, {}))
    case Mint(true, f) => s.(left := Post(s.left.(facts := s.left.facts + {f}), {f}))
    case Mint(false, f) => s.(right := Post(s.right.(facts := s.right.facts + {f}), {f}))
    case Deliver(true) => var (l, r) := DeliverTo(s.left, s.right); Pair(l, r)
    case Deliver(false) => var (r, l) := DeliverTo(s.right, s.left); Pair(l, r)
  }

  function Start(left: set<Fact>, right: set<Fact>): Pair {
    Pair(Peer(left, None, [], [], None, None), Peer(right, None, [], [], None, None))
  }

  function Run(s: Pair, steps: seq<Step>): Pair {
    if steps == [] then s else Apply(Run(s, steps[..|steps| - 1]), steps[|steps| - 1])
  }

  // ---------------------------------------------------------------------
  // Invariant
  // ---------------------------------------------------------------------

  function Carried(out: seq<Envelope>): set<Fact> {
    if out == [] then {} else Carried(out[..|out| - 1]) + out[|out| - 1].events
  }

  /** Hashes on a channel only grow, and never beyond the sender's facts. */
  predicate Growing(p: Peer) {
    && (forall i :: 0 <= i < |p.out| ==> p.out[i].events <= p.out[i].hash <= p.facts)
    && (forall i, j :: 0 <= i <= j < |p.out| ==> p.out[i].hash <= p.out[j].hash)
    && (p.stated.Some? ==> p.stated.value <= p.facts)
    && (p.out != [] ==> p.stated == Some(p.out[|p.out| - 1].hash))
  }

  /** The hashes of the peer that were answered form a strictly growing chain. */
  predicate Chain(answers: seq<set<Fact>>) {
    forall i, j :: 0 <= i < j < |answers| ==> answers[i] < answers[j]
  }

  predicate Answering(own: Peer, peer: Peer) {
    && Chain(own.answers)
    && own.answered == (if own.answers == [] then None else Some(own.answers[|own.answers| - 1]))
    && (own.answers != [] ==>
          && own.answers[|own.answers| - 1] <= peer.facts
          && forall i :: 0 <= i < |peer.out| ==> own.answers[|own.answers| - 1] <= peer.out[i].hash)
  }

  /** own has heard peer's last statement once nothing of it is under way. */
  predicate Heard(own: Peer, peer: Peer) {
    && (peer.out == [] ==> own.heard == peer.stated)
    && (own.heard.Some? ==> own.heard.value <= peer.facts)
    && (own.heard.Some? ==> forall i :: 0 <= i < |peer.out| ==> own.heard.value <= peer.out[i].hash)
    && (own.heard.Some? ==> peer.stated.Some?)
    && (own.answers != [] ==> own.heard.Some? && own.stated.Some?)
  }

  /** Where own's facts can be beyond its own: stated already, under way, or known to the peer. */
  predicate Accounted(own: Peer, peer: Peer) {
    && (own.stated.Some? ==> own.facts <= own.stated.value + peer.facts)
    && (own.answers != [] ==> own.facts <= peer.facts + Carried(own.out))
    && (own.answers == [] && own.heard.Some? ==>
          own.heard.value <= own.facts && own.facts <= peer.facts + Carried(own.out))
  }

  predicate Side(own: Peer, peer: Peer) {
    Growing(own) && Answering(own, peer) && Heard(own, peer) && Accounted(own, peer)
  }

  predicate Inv(s: Pair) {
    Side(s.left, s.right) && Side(s.right, s.left)
  }

  // ---------------------------------------------------------------------
  // Every step keeps it
  // ---------------------------------------------------------------------

  lemma CarriedPush(out: seq<Envelope>, env: Envelope)
    ensures Carried(out + [env]) == Carried(out) + env.events
  {
    assert (out + [env])[..|out|] == out;
  }

  lemma {:induction false} CarriedPop(out: seq<Envelope>)
    requires out != []
    ensures Carried(out) == out[0].events + Carried(out[1..])
  {
    var n := |out| - 1;
    if n > 0 {
      CarriedPop(out[..n]);
      assert out[..n][1..] == out[1..][..n - 1];
    }
  }

  lemma PostKeeps(own: Peer, peer: Peer, minted: set<Fact>)
    requires Side(own, peer) && Side(peer, own)
    ensures var own' := Post(own.(facts := own.facts + minted), minted);
            Side(own', peer) && Side(peer, own')
  {
    var env := Envelope(minted, own.facts + minted);
    CarriedPush(own.out, env);
  }

  /** Folding the head of the channel, before any answer. */
  function Folded(own: Peer, env: Envelope): Peer {
    own.(facts := own.facts + env.events, heard := Some(env.hash))
  }

  lemma PopKeepsSender(own: Peer, peer: Peer)
    requires Side(own, peer) && Side(peer, own) && peer.out != []
    ensures var env := peer.out[0];
            var own', peer' := Folded(own, env), peer.(out := peer.out[1..]);
            && Side(peer', own')
            && Growing(own') && Answering(own', peer') && own'.facts <= own.facts + peer.facts
            && (own'.stated.Some? ==> own'.facts <= own'.stated.value + peer.facts)
            && (own.answers != [] ==> own'.facts <= peer.facts + Carried(own.out))
  {
    CarriedPop(peer.out);
  }

  lemma SilentKeeps(own: Peer, peer: Peer)
    requires Side(own, peer) && Side(peer, own) && peer.out != []
    requires peer.out[0].hash == own.facts + peer.out[0].events || own.answered == Some(peer.out[0].hash)
    ensures var own', peer' := Folded(own, peer.out[0]), peer.(out := peer.out[1..]);
            Side(own', peer') && Side(peer', own')
  {
    PopKeepsSender(own, peer);
    var own', peer' := Folded(own, peer.out[0]), peer.(out := peer.out[1..]);
    assert Heard(own', peer');
    assert Accounted(own', peer');
  }

  function Answer(own: Peer, env: Envelope): Peer {
    Post(Folded(own, env).(answered := Some(env.hash), answers := own.answers + [env.hash]), own.facts + env.events)
  }

  lemma ProperSubset(a: set<Fact>, b: set<Fact>)
    requires a <= b && a != b
    ensures a < b
  {
    assert b <= a ==> a == b;
  }

  lemma ChainPush(answers: seq<set<Fact>>, hash: set<Fact>)
    requires Chain(answers) && (answers != [] ==> answers[|answers| - 1] < hash)
    ensures Chain(answers + [hash])
  {
    forall i | 0 <= i < |answers| ensures answers[i] < hash {
      assert answers[i] <= answers[|answers| - 1];
    }
  }

  lemma AnswerGrows(own: Peer, env: Envelope)
    requires Growing(own)
    ensures Growing(Answer(own, env))
  {
    var own' := Answer(own, env);
    assert forall i :: 0 <= i < |own.out| ==> own'.out[i] == own.out[i];
    assert own'.out[|own.out|] == Envelope(own'.facts, own'.facts);
  }

  lemma AnswerChains(own: Peer, peer: Peer)
    requires Side(own, peer) && Growing(peer) && peer.out != [] && own.answered != Some(peer.out[0].hash)
    ensures Answering(Answer(own, peer.out[0]), peer.(out := peer.out[1..]))
  {
    var env := peer.out[0];
    if own.answers != [] {
      ProperSubset(own.answers[|own.answers| - 1], env.hash);
    }
    ChainPush(own.answers, env.hash);
    assert forall i :: 0 <= i < |peer.out[1..]| ==> peer.out[1..][i] == peer.out[i + 1];
  }

  lemma AnswerAccounts(own: Peer, peer: Peer)
    requires Side(own, peer) && Side(peer, own) && peer.out != []
    ensures Heard(Answer(own, peer.out[0]), peer.(out := peer.out[1..]))
    ensures Accounted(Answer(own, peer.out[0]), peer.(out := peer.out[1..]))
  {
    var own' := Answer(own, peer.out[0]);
    CarriedPush(own.out, Envelope(own'.facts, own'.facts));
    assert forall i :: 0 <= i < |peer.out[1..]| ==> peer.out[1..][i] == peer.out[i + 1];
  }

  lemma AnswerKeepsOwn(own: Peer, peer: Peer)
    requires Side(own, peer) && Side(peer, own) && peer.out != []
    requires own.answered != Some(peer.out[0].hash)
    ensures Side(Answer(own, peer.out[0]), peer.(out := peer.out[1..]))
  {
    AnswerGrows(own, peer.out[0]);
    AnswerChains(own, peer);
    AnswerAccounts(own, peer);
  }

  lemma AnswerKeepsPeer(own: Peer, peer: Peer)
    requires Side(own, peer) && Side(peer, own) && peer.out != []
    ensures Side(peer.(out := peer.out[1..]), Answer(own, peer.out[0]))
  {
    PopKeepsSender(own, peer);
    var own', peer' := Answer(own, peer.out[0]), peer.(out := peer.out[1..]);
    assert Answering(peer', own');
    assert Heard(peer', own');
  }

  lemma DeliverKeeps(own: Peer, peer: Peer)
    requires Side(own, peer) && Side(peer, own)
    ensures var (own', peer') := DeliverTo(own, peer); Side(own', peer') && Side(peer', own')
  {
    if peer.out != [] {
      var env := peer.out[0];
      if env.hash == own.facts + env.events || own.answered == Some(env.hash) {
        SilentKeeps(own, peer);
      } else {
        AnswerKeepsOwn(own, peer);
        AnswerKeepsPeer(own, peer);
      }
    }
  }

  lemma StepKeeps(s: Pair, step: Step)
    requires Inv(s)
    ensures Inv(Apply(s, step))
  {
    match step
    case Say(true) => PostKeeps(s.left, s.right, {}); assert s.left.facts + {} == s.left.facts;
    case Say(false) => PostKeeps(s.right, s.left, {}); assert s.right.facts + {} == s.right.facts;
    case Mint(true, f) => PostKeeps(s.left, s.right, {f});
    case Mint(false, f) => PostKeeps(s.right, s.left, {f});
    case Deliver(true) => DeliverKeeps(s.left, s.right);
    case Deliver(false) => DeliverKeeps(s.right, s.left);
  }

  lemma {:induction false} RunKeeps(left: set<Fact>, right: set<Fact>, steps: seq<Step>)
    ensures Inv(Run(Start(left, right), steps))
  {
    if steps != [] {
      var n := |steps| - 1;
      RunKeeps(left, right, steps[..n]);
      StepKeeps(Run(Start(left, right), steps[..n]), steps[n]);
    }
  }

  // ---------------------------------------------------------------------
  // What reconciliation promises
  // ---------------------------------------------------------------------

  /** In every run each member answers any one hash of the other at most once. */
  lemma EachHashAnsweredOnce(left: set<Fact>, right: set<Fact>, steps: seq<Step>, i: nat, j: nat)
    ensures var s := Run(Start(left, right), steps);
            && (i < j < |s.left.answers| ==> s.left.answers[i] != s.left.answers[j])
            && (i < j < |s.right.answers| ==> s.right.answers[i] != s.right.answers[j])
  {
    RunKeeps(left, right, steps);
  }

  predicate Quiet(s: Pair) {
    s.left.out == [] && s.right.out == []
  }

  /** All facts either member ever held: the initial ones and those minted since. */
  function World(left: set<Fact>, right: set<Fact>, steps: seq<Step>): set<Fact> {
    if steps == [] then left + right
    else
      var last := steps[|steps| - 1];
      World(left, right, steps[..|steps| - 1]) + (if last.Mint? then {last.fact} else {})
  }

  lemma {:induction false} NothingInventedOrLost(left: set<Fact>, right: set<Fact>, steps: seq<Step>)
    ensures var s := Run(Start(left, right), steps);
            s.left.facts + s.right.facts == World(left, right, steps)
  {
    if steps != [] {
      var n := |steps| - 1;
      NothingInventedOrLost(left, right, steps[..n]);
      RunKeeps(left, right, steps[..n]);
      StepAddsMinted(Run(Start(left, right), steps[..n]), steps[n]);
    }
  }

  lemma StepAddsMinted(s: Pair, step: Step)
    requires Inv(s)
    ensures var s' := Apply(s, step);
            s'.left.facts + s'.right.facts == s.left.facts + s.right.facts + if step.Mint? then {step.fact} else {}
  {
    if step.Deliver? && Channel(s, step.toLeft) != [] {
      var sender := if step.toLeft then s.right else s.left;
      assert sender.out[0].events <= sender.facts;
    }
  }

  /** Once anything was said and nothing is under way, both hold the union. */
  lemma QuietMeansUnion(left: set<Fact>, right: set<Fact>, steps: seq<Step>)
    ensures var s := Run(Start(left, right), steps);
            Quiet(s) && (s.left.stated.Some? || s.right.stated.Some?) ==>
              s.left.facts == s.right.facts == World(left, right, steps)
  {
    var s := Run(Start(left, right), steps);
    RunKeeps(left, right, steps);
    NothingInventedOrLost(left, right, steps);
    if Quiet(s) {
      if s.left.stated.Some? {
        QuietSide(s.left, s.right);
      } else if s.right.stated.Some? {
        QuietSide(s.right, s.left);
      }
    }
  }

  lemma QuietSide(speaker: Peer, listener: Peer)
    requires Side(speaker, listener) && Side(listener, speaker)
    requires speaker.out == [] && listener.out == [] && speaker.stated.Some?
    ensures speaker.facts == listener.facts
  {
    assert listener.facts <= speaker.facts;
    if listener.answers == [] {
      assert speaker.stated.value <= listener.facts;
    } else {
      assert speaker.heard.Some?;
    }
  }

  /** Deliveries left before silence: what is under way, plus the answers still possible. */
  function Budget(s: Pair): int {
    |s.left.out| + |s.right.out| + 2 * (|s.left.facts + s.right.facts| + 1) - |s.left.answers| - |s.right.answers|
  }

  lemma {:induction false} ChainIsShort(answers: seq<set<Fact>>, bound: set<Fact>)
    requires Chain(answers) && forall i :: 0 <= i < |answers| ==> answers[i] <= bound
    ensures |answers| <= |bound| + 1
  {
    if |answers| > 1 {
      var n := |answers| - 1;
      ChainIsShort(answers[..n], answers[n - 1]);
      SubsetSize(answers[n - 1], answers[n]);
      SubsetSize(answers[n], bound);
    }
  }

  lemma BudgetNonNegative(s: Pair)
    requires Inv(s)
    ensures Budget(s) >= |s.left.out| + |s.right.out|
  {
    var all := s.left.facts + s.right.facts;
    AnswersBounded(s.left, s.right, all);
    AnswersBounded(s.right, s.left, all);
  }

  lemma AnswersBounded(own: Peer, peer: Peer, all: set<Fact>)
    requires Answering(own, peer) && peer.facts <= all
    ensures |own.answers| <= |all| + 1
  {
    forall i | 0 <= i < |own.answers| ensures own.answers[i] <= all {
      assert own.answers[i] <= own.answers[|own.answers| - 1];
    }
    ChainIsShort(own.answers, all);
  }

  /** Each delivery uses the budget up by one, so without new speech the exchange ends. */
  lemma DeliveriesFallSilent(s: Pair, toLeft: bool)
    requires Inv(s) && Channel(s, toLeft) != []
    ensures var s' := Apply(s, Deliver(toLeft));
            Inv(s') && Budget(s') == Budget(s) - 1 && 0 <= Budget(s')
  {
    var s' := Apply(s, Deliver(toLeft));
    StepKeeps(s, Deliver(toLeft));
    BudgetNonNegative(s');
    StepAddsMinted(s, Deliver(toLeft));
  }

  /** The envelopes a delivery would take from. */
  function Channel(s: Pair, toLeft: bool): seq<Envelope> {
    if toLeft then s.right.out else s.left.out
  }

  /** Deliveries only, each of an envelope that is under way. */
  predicate Drains(s: Pair, steps: seq<Step>) {
    steps == [] ||
    var n := |steps| - 1;
    Drains(s, steps[..n]) && steps[n].Deliver? && Channel(Run(s, steps[..n]), steps[n].toLeft) != []
  }

  /** From every reachable state the exchange ends within the budget, whatever the order of deliveries. */
  lemma {:induction false} ExchangeEnds(s: Pair, steps: seq<Step>)
    requires Inv(s) && Drains(s, steps)
    ensures Inv(Run(s, steps)) && 0 <= Budget(Run(s, steps)) == Budget(s) - |steps|
  {
    if steps == [] {
      BudgetNonNegative(s);
    } else {
      var n := |steps| - 1;
      ExchangeEnds(s, steps[..n]);
      DeliveriesFallSilent(Run(s, steps[..n]), steps[n].toLeft);
    }
  }

  /** The drain cannot go on: nothing is left to deliver. */
  predicate Maximal(s: Pair, drain: seq<Step>) {
    Drains(s, drain) && !Drains(s, drain + [Deliver(true)]) && !Drains(s, drain + [Deliver(false)])
  }

  lemma DrainGoesOn(s: Pair, drain: seq<Step>, toLeft: bool)
    requires Drains(s, drain) && Channel(Run(s, drain), toLeft) != []
    ensures Drains(s, drain + [Deliver(toLeft)])
  {
    assert (drain + [Deliver(toLeft)])[..|drain|] == drain;
  }

  lemma {:induction false} DrainDelivers(s: Pair, drain: seq<Step>)
    requires Drains(s, drain)
    ensures forall i :: 0 <= i < |drain| ==> drain[i].Deliver?
  {
    if drain != [] {
      DrainDelivers(s, drain[..|drain| - 1]);
    }
  }

  lemma {:induction false} RunConcat(s: Pair, front: seq<Step>, back: seq<Step>)
    ensures Run(s, front + back) == Run(Run(s, front), back)
  {
    if back == [] {
      assert front + back == front;
    } else {
      var n := |back| - 1;
      assert (front + back)[..|front| + n] == front + back[..n];
      RunConcat(s, front, back[..n]);
    }
  }

  lemma {:induction false} DrainMintsNothing(left: set<Fact>, right: set<Fact>, steps: seq<Step>, drain: seq<Step>)
    requires forall i :: 0 <= i < |drain| ==> drain[i].Deliver?
    ensures World(left, right, steps + drain) == World(left, right, steps)
  {
    if drain == [] {
      assert steps + drain == steps;
    } else {
      var n := |drain| - 1;
      assert (steps + drain)[..|steps| + n] == steps + drain[..n];
      DrainMintsNothing(left, right, steps, drain[..n]);
    }
  }

  predicate Spoken(s: Pair) {
    s.left.stated.Some? || s.right.stated.Some?
  }

  lemma {:induction false} SpokenStays(s: Pair, steps: seq<Step>)
    requires Spoken(s)
    ensures Spoken(Run(s, steps))
  {
    if steps != [] {
      SpokenStays(s, steps[..|steps| - 1]);
    }
  }

  /** From every reachable state in which something was said, every way of delivering until nothing is left ends within
      the budget with both members holding every fact. */
  lemma EveryDrainReachesTheUnion(left: set<Fact>, right: set<Fact>, steps: seq<Step>, drain: seq<Step>)
    requires Spoken(Run(Start(left, right), steps)) && Maximal(Run(Start(left, right), steps), drain)
    ensures var s := Run(Start(left, right), steps);
            var end := Run(s, drain);
            && |drain| <= Budget(s) && Quiet(end)
            && end.left.facts == end.right.facts == World(left, right, steps)
  {
    var s := Run(Start(left, right), steps);
    var end := Run(s, drain);
    RunKeeps(left, right, steps);
    ExchangeEnds(s, drain);
    assert end.right.out == [] by {
      if end.right.out != [] {
        DrainGoesOn(s, drain, true);
      }
    }
    assert end.left.out == [] by {
      if end.left.out != [] {
        DrainGoesOn(s, drain, false);
      }
    }
    SpokenStays(s, drain);
    RunConcat(Start(left, right), steps, drain);
    QuietMeansUnion(left, right, steps + drain);
    DrainDelivers(s, drain);
    DrainMintsNothing(left, right, steps, drain);
  }

  /** One statement by either member is enough: whatever came before, every way of delivering from there until nothing
      is left ends with both holding every fact. */
  lemma OneStatementReconciles(left: set<Fact>, right: set<Fact>, steps: seq<Step>, byLeft: bool, drain: seq<Step>)
    requires Maximal(Run(Start(left, right), steps + [Say(byLeft)]), drain)
    ensures var end := Run(Run(Start(left, right), steps + [Say(byLeft)]), drain);
            Quiet(end) && end.left.facts == end.right.facts == World(left, right, steps)
  {
    var said := steps + [Say(byLeft)];
    assert said[..|steps|] == steps;
    EveryDrainReachesTheUnion(left, right, said, drain);
  }

  // ---------------------------------------------------------------------
  // Who answers whom
  // ---------------------------------------------------------------------

  /** A delivery is answered exactly if the hash differs from the view it was folded into and is not the last one
      answered; the answer is the whole view, and nothing else is posted. */
  lemma AnswersExactly(own: Peer, peer: Peer)
    requires peer.out != []
    ensures var env := peer.out[0];
            var (own', peer') := DeliverTo(own, peer);
            var view := own.facts + env.events;
            && own'.facts == view && peer' == peer.(out := peer.out[1..])
            && own'.out == (if env.hash == view || own.answered == Some(env.hash) then own.out
                            else own.out + [Envelope(view, view)])
            && (own'.out != own.out ==> own'.answered == Some(env.hash))
  {
  }

  /** Both hold these facts, and say nothing else. */
  predicate Agreed(s: Pair, facts: set<Fact>) {
    && s.left.facts == s.right.facts == facts
    && (forall i :: 0 <= i < |s.left.out| ==> s.left.out[i].hash == facts && s.left.out[i].events <= facts)
    && (forall i :: 0 <= i < |s.right.out| ==> s.right.out[i].hash == facts && s.right.out[i].events <= facts)
  }

  /** Members in agreement trade no snapshots: over any statements and deliveries neither answers anything, and every
      delivery shortens its channel. */
  lemma {:induction false} AgreementIsSilent(s: Pair, facts: set<Fact>, steps: seq<Step>)
    requires Agreed(s, facts) && forall step :: step in steps ==> !step.Mint?
    ensures var s' := Run(s, steps);
            && Agreed(s', facts) && s'.left.answers == s.left.answers && s'.right.answers == s.right.answers
            && |s'.left.out| <= |s.left.out| + Statements(steps, true)
            && |s'.right.out| <= |s.right.out| + Statements(steps, false)
  {
    if steps != [] {
      var n := |steps| - 1;
      assert steps[n] in steps && forall step :: step in steps[..n] ==> step in steps;
      AgreementIsSilent(s, facts, steps[..n]);
      AgreedStep(Run(s, steps[..n]), facts, steps[n]);
    }
  }

  /** Statements of one member among the steps. */
  function Statements(steps: seq<Step>, left: bool): nat {
    if steps == [] then 0
    else Statements(steps[..|steps| - 1], left) + if steps[|steps| - 1] == Say(left) then 1 else 0
  }

  lemma AgreedStep(s: Pair, facts: set<Fact>, step: Step)
    requires Agreed(s, facts) && !step.Mint?
    ensures var s' := Apply(s, step);
            && Agreed(s', facts) && s'.left.answers == s.left.answers && s'.right.answers == s.right.answers
            && |s'.left.out| <= |s.left.out| + (if step == Say(true) then 1 else 0)
            && |s'.right.out| <= |s.right.out| + (if step == Say(false) then 1 else 0)
  {
    if step.Deliver? && Channel(s, step.toLeft) != [] {
      var env := Channel(s, step.toLeft)[0];
      assert facts + env.events == facts;
    }
  }
}

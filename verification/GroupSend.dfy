/**
 Fan-out and retry of one group message (pkg/client/groupsend.go), and the
 receiving transcripts (pkg/client/groups.go storeGroupMessage), over whole runs
 with lost responses, batch fallback, retries, membership changes and
 redelivery. What the network does to a copy is a parameter of each attempt.
 */
module GroupSend {
  import opened Collections

  /** Account ids, wire ids and message ids, numbered. */
  type Account = nat
  type Wire = nat
  type MessageId = nat

  datatype SendState = Pending | Sent | Failed

  datatype Delivery = Delivery(account: Account, state: SendState, wire: Option<Wire>)

  /**
   What one attempt meets at one recipient. reported is whether the sender ends
   up with a success answer; whether the copy really arrived is independent of it.
   */
  datatype Fate = Blocked | PrepareFails | Posted(minted: Wire, reported: bool)

  predicate DistinctAccounts(ds: seq<Delivery>) {
    forall i, j :: 0 <= i < j < |ds| ==> ds[i].account != ds[j].account
  }

  /** A copy handed to a recipient's server, under the id that server de-duplicates by. */
  datatype Copy = Copy(account: Account, wire: Wire)

  // ---------------------------------------------------------------------
  // One attempt
  // ---------------------------------------------------------------------

  function WireFor(account: Account, wires: map<Account, Wire>, minted: Wire): Wire {
    if account in wires then wires[account] else minted
  }

  /** The record one attempt leaves for one recipient; none for a blocked one. */
  function Outcome(account: Account, wires: map<Account, Wire>, fate: Fate): seq<Delivery> {
    match fate
    case Blocked => []
    case PrepareFails => [Delivery(account, Failed, None)]
    case Posted(minted, reported) =>
      [Delivery(account, if reported then Sent else Failed, Some(WireFor(account, wires, minted)))]
  }

  function FanOut(recipients: seq<Account>, wires: map<Account, Wire>, fates: Account -> Fate): seq<Delivery> {
    if recipients == [] then []
    else
      var n := |recipients| - 1;
      FanOut(recipients[..n], wires, fates) + Outcome(recipients[n], wires, fates(recipients[n]))
  }

  /** The copies actually handed to servers. */
  function Posts(recipients: seq<Account>, wires: map<Account, Wire>, fates: Account -> Fate): seq<Copy> {
    if recipients == [] then []
    else
      var n := |recipients| - 1;
      Posts(recipients[..n], wires, fates)
      + (if fates(recipients[n]).Posted?
        then [Copy(recipients[n], WireFor(recipients[n], wires, fates(recipients[n]).minted))] else [])
  }

  /** The members a retry addresses: recorded, not recorded as sent, still joined; in the transcript's order. */
  function Targets(ds: seq<Delivery>, joined: set<Account>): seq<Account> {
    if ds == [] then []
    else
      var n := |ds| - 1;
      Targets(ds[..n], joined)
      + (if ds[n].state != Sent && ds[n].account in joined then [ds[n].account] else [])
  }

  /** Records of members no longer joined are settled, the others kept. */
  function Settle(ds: seq<Delivery>, joined: set<Account>): (r: seq<Delivery>)
    ensures |r| == |ds|
  {
    seq(|ds|, i requires 0 <= i < |ds| =>
      if ds[i].state != Sent && ds[i].account !in joined then ds[i].(state := Sent) else ds[i])
  }

  /** One delivery record read back over the one before it: a record without a wire id leaves the earlier id in
      place. */
  function Update(d: Delivery, r: Delivery): Delivery {
    Delivery(d.account, r.state, if r.wire.Some? then r.wire else d.wire)
  }

  function Put(ds: seq<Delivery>, r: Delivery): (ds': seq<Delivery>)
    ensures |ds'| == |ds|
  {
    seq(|ds|, i requires 0 <= i < |ds| => if ds[i].account == r.account then Update(ds[i], r) else ds[i])
  }

  /** The transcript's records once the results have been appended to it, in order. */
  function Merge(ds: seq<Delivery>, results: seq<Delivery>): (r: seq<Delivery>)
    ensures |r| == |ds|
  {
    if results == [] then ds else Put(Merge(ds, results[..|results| - 1]), results[|results| - 1])
  }

  function WiresOf(ds: seq<Delivery>): map<Account, Wire> {
    if ds == [] then map[]
    else
      var n := |ds| - 1;
      if ds[n].wire.Some? then WiresOf(ds[..n])[ds[n].account := ds[n].wire.value] else WiresOf(ds[..n])
  }

  predicate AnySent(ds: seq<Delivery>) {
    exists i :: 0 <= i < |ds| && ds[i].state == Sent
  }

  datatype Message = Message(state: SendState, deliveries: seq<Delivery>)

  function StateOf(ds: seq<Delivery>): SendState {
    if AnySent(ds) then Sent else Failed
  }

  /** The first fan-out of a message, to everyone it was recorded for. */
  function First(m: Message, fates: Account -> Fate): Message {
    var merged := Merge(m.deliveries, FanOut(AccountSeq(m.deliveries), map[], fates));
    Message(StateOf(merged), merged)
  }

  function AccountSeq(ds: seq<Delivery>): seq<Account> {
    seq(|ds|, i requires 0 <= i < |ds| => ds[i].account)
  }

  /** A retry of a message that is not still sending. */
  function Retry(m: Message, joined: set<Account>, fates: Account -> Fate): Message
    requires m.state != Pending
  {
    var settled := Settle(m.deliveries, joined);
    var targets := Targets(m.deliveries, joined);
    if targets == [] then Message(Sent, settled)
    else
      var merged := Merge(settled, FanOut(targets, WiresOf(settled), fates));
      Message(StateOf(merged), merged)
  }

  /** failInFlightSends: nothing is in flight in a process that no longer exists. */
  function Reopened(m: Message): Message {
    Message(if m.state == Pending then Failed else m.state, Unstuck(m.deliveries))
  }

  function Unstuck(ds: seq<Delivery>): (r: seq<Delivery>)
    ensures |r| == |ds|
  {
    seq(|ds|, i requires 0 <= i < |ds| => if ds[i].state == Pending then ds[i].(state := Failed) else ds[i])
  }

  class GroupLine {
    var sendState: SendState
    var deliveries: seq<Delivery>

    function Value(): Message
      reads this
    {
      Message(sendState, deliveries)
    }

    /** One pending record per joined member, written with the line itself. */
    constructor (recipients: seq<Account>)
      ensures sendState == Pending && |deliveries| == |recipients|
      ensures forall i :: 0 <= i < |recipients| ==> deliveries[i] == Delivery(recipients[i], Pending, None)
    {
      sendState := Pending;
      deliveries := seq(|recipients|, i requires 0 <= i < |recipients| => Delivery(recipients[i], Pending, None));
    }

    method AttemptFanOut(recipients: seq<Account>, wires: map<Account, Wire>, fates: Account -> Fate)
      returns (results: seq<Delivery>, posted: seq<Copy>)
      ensures results == FanOut(recipients, wires, fates) && posted == Posts(recipients, wires, fates)
    {
      results, posted := [], [];
      for i := 0 to |recipients|
        invariant results == FanOut(recipients[..i], wires, fates) && posted == Posts(recipients[..i], wires, fates)
      {
        assert recipients[..i + 1][..i] == recipients[..i];
        var a := recipients[i];
        match fates(a) {
          case Blocked =>
          case PrepareFails => results := results + [Delivery(a, Failed, None)];
          case Posted(minted, reported) =>
            var wire := WireFor(a, wires, minted);
            posted := posted + [Copy(a, wire)];
            results := results + [Delivery(a, if reported then Sent else Failed, Some(wire))];
        }
      }
      assert recipients[..|recipients|] == recipients;
    }

    method SelectTargets(joined: set<Account>) returns (targets: seq<Account>)
      modifies this`deliveries
      ensures targets == Targets(old(deliveries), joined) && deliveries == Settle(old(deliveries), joined)
    {
      targets := [];
      ghost var before := deliveries;
      for i := 0 to |deliveries|
        invariant |deliveries| == |before|
        invariant targets == Targets(before[..i], joined)
        invariant forall j :: 0 <= j < i ==> deliveries[j] == Settle(before, joined)[j]
        invariant forall j :: i <= j < |before| ==> deliveries[j] == before[j]
      {
        assert before[..i + 1][..i] == before[..i];
        var d := deliveries[i];
        assert d == before[i];
        if d.state != Sent {
          if d.account in joined {
            targets := targets + [d.account];
          } else {
            deliveries := deliveries[i := d.(state := Sent)];
          }
        }
      }
      assert before[..|before|] == before;
    }

    method RetryGroupMessage(joined: set<Account>, fates: Account -> Fate) returns (ok: bool, posted: seq<Copy>)
      modifies this
      ensures ok == (old(sendState) != Pending)
      ensures !ok ==> Value() == old(Value()) && posted == []
      ensures ok ==>
                && Value() == Retry(old(Value()), joined, fates)
                && posted == Posts(Targets(old(deliveries), joined), WiresOf(Settle(old(deliveries), joined)), fates)
    {
      if sendState == Pending {
        return false, [];
      }
      var targets := SelectTargets(joined);
      if targets == [] {
        sendState := Sent;
        return true, [];
      }
      sendState := Pending;
      var results;
      results, posted := AttemptFanOut(targets, WiresOf(deliveries), fates);
      RecordDeliveries(results);
      sendState := StateOf(deliveries);
      return true, posted;
    }

    /** The first fan-out, in the call that composed the message. */
    method SendFirst(fates: Account -> Fate) returns (posted: seq<Copy>)
      modifies this
      ensures Value() == First(old(Value()), fates)
      ensures posted == Posts(AccountSeq(old(deliveries)), map[], fates)
    {
      var results;
      results, posted := AttemptFanOut(AccountSeq(deliveries), map[], fates);
      RecordDeliveries(results);
      sendState := StateOf(deliveries);
    }

    method RecordDeliveries(results: seq<Delivery>)
      modifies this`deliveries
      ensures deliveries == Merge(old(deliveries), results)
    {
      for i := 0 to |results|
        invariant deliveries == Merge(old(deliveries), results[..i])
      {
        assert results[..i + 1][..i] == results[..i];
        deliveries := Put(deliveries, results[i]);
      }
      assert results[..|results|] == results;
    }

    method FailInFlightSends()
      modifies this
      ensures Value() == Reopened(old(Value()))
    {
      if sendState == Pending {
        sendState := Failed;
      }
      ghost var before := deliveries;
      for i := 0 to |deliveries|
        invariant |deliveries| == |before| && sendState == Reopened(old(Value())).state
        invariant forall j :: 0 <= j < i ==> deliveries[j] == Unstuck(before)[j]
        invariant forall j :: i <= j < |before| ==> deliveries[j] == before[j]
      {
        if deliveries[i].state == Pending {
          deliveries := deliveries[i := deliveries[i].(state := Failed)];
        }
      }
    }
  }

  function AccountsOf(ds: seq<Delivery>): set<Account> {
    set d | d in ds :: d.account
  }

  // ---------------------------------------------------------------------
  // What one attempt does to one account
  // ---------------------------------------------------------------------

  lemma {:induction false} TargetsMembers(ds: seq<Delivery>, joined: set<Account>, a: Account)
    ensures a in Targets(ds, joined) <==>
            exists i :: 0 <= i < |ds| && ds[i].account == a && ds[i].state != Sent && a in joined
  {
    if ds != [] {
      var n := |ds| - 1;
      TargetsMembers(ds[..n], joined, a);
      if a in Targets(ds[..n], joined) {
        var i :| 0 <= i < n && ds[..n][i].account == a && ds[..n][i].state != Sent && a in joined;
        assert ds[i].account == a;
      }
      forall i | 0 <= i < n && ds[i].account == a && ds[i].state != Sent && a in joined
        ensures a in Targets(ds[..n], joined)
      {
        assert ds[..n][i] == ds[i];
      }
    }
  }

  lemma {:induction false} PostsMembers(recipients: seq<Account>, wires: map<Account, Wire>, fates: Account -> Fate,
                                        c: Copy)
    ensures c in Posts(recipients, wires, fates) <==>
              c.account in recipients && fates(c.account).Posted?
                && c.wire == WireFor(c.account, wires, fates(c.account).minted)
  {
    if recipients != [] {
      var n := |recipients| - 1;
      PostsMembers(recipients[..n], wires, fates, c);
      assert recipients == recipients[..n] + [recipients[n]];
    }
  }

  lemma {:induction false} WiresOfLookup(ds: seq<Delivery>, i: nat)
    requires DistinctAccounts(ds) && i < |ds|
    ensures ds[i].account in WiresOf(ds) <==> ds[i].wire.Some?
    ensures ds[i].wire.Some? ==> WiresOf(ds)[ds[i].account] == ds[i].wire.value
  {
    var n := |ds| - 1;
    WiresOfKeys(ds[..n]);
    if i < n {
      WiresOfLookup(ds[..n], i);
      assert ds[..n][i] == ds[i];
    }
  }

  lemma {:induction false} WiresOfKeys(ds: seq<Delivery>)
    ensures forall a :: a in WiresOf(ds) ==> exists i :: 0 <= i < |ds| && ds[i].account == a
  {
    if ds != [] {
      var n := |ds| - 1;
      WiresOfKeys(ds[..n]);
      forall a | a in WiresOf(ds) ensures exists i :: 0 <= i < |ds| && ds[i].account == a {
        if a in WiresOf(ds[..n]) {
          var i :| 0 <= i < n && ds[..n][i].account == a;
          assert ds[i].account == a;
        } else {
          assert ds[n].account == a;
        }
      }
    }
  }

  /** The record an attempt leaves, by fate. */
  function After(d: Delivery, joined: set<Account>, fate: Fate): Delivery {
    if d.state == Sent then d
    else if d.account !in joined then d.(state := Sent)
    else
      match fate
      case Blocked => d
      case PrepareFails => d.(state := Failed)
      case Posted(minted, reported) =>
        Delivery(d.account, if reported then Sent else Failed, Some(if d.wire.Some? then d.wire.value else minted))
  }

  /** What a record becomes when one recipient's outcome is appended. */
  function Noted(d: Delivery, outcome: seq<Delivery>): Delivery {
    if outcome == [] then d else Update(d, outcome[0])
  }

  lemma {:induction false} MergeRecord(ds: seq<Delivery>, recipients: seq<Account>, wires: map<Account, Wire>,
                                       fates: Account -> Fate, i: nat)
    requires i < |ds|
    ensures var a := ds[i].account;
            Merge(ds, FanOut(recipients, wires, fates))[i]
            == if a in recipients then Noted(ds[i], Outcome(a, wires, fates(a))) else ds[i]
  {
    if recipients != [] {
      var n := |recipients| - 1;
      MergeRecord(ds, recipients[..n], wires, fates, i);
      var front := FanOut(recipients[..n], wires, fates);
      var last := Outcome(recipients[n], wires, fates(recipients[n]));
      assert recipients == recipients[..n] + [recipients[n]];
      if last == [] {
        assert front + last == front;
      } else {
        assert last == [last[0]];
        MergeNext(ds, front, last[0], i);
      }
    }
  }

  lemma MergeNext(ds: seq<Delivery>, results: seq<Delivery>, r: Delivery, i: nat)
    requires i < |ds|
    ensures Merge(ds, results + [r])[i] == Put(Merge(ds, results), r)[i]
  {
    assert (results + [r])[..|results|] == results;
  }

  /** A retry acts on each record separately, whichever targets' outcomes were recorded. */
  lemma RetryRecord(ds: seq<Delivery>, joined: set<Account>, fates: Account -> Fate, done: nat, i: nat)
    requires DistinctAccounts(ds) && i < |ds| && done <= |Targets(ds, joined)|
    ensures var settled, reached := Settle(ds, joined), Targets(ds, joined)[..done];
            var a := ds[i].account;
            Merge(settled, FanOut(reached, WiresOf(settled), fates))[i]
            == After(ds[i], joined, if a in reached then fates(a) else Blocked)
  {
    var settled, targets := Settle(ds, joined), Targets(ds, joined);
    var a, d := ds[i].account, settled[i];
    assert DistinctAccounts(settled) && d.account == a && d.wire == ds[i].wire;
    WiresOfLookup(settled, i);
    MergeRecord(settled, targets[..done], WiresOf(settled), fates, i);
    TargetIffOwed(ds, joined, i);
    if a in targets[..done] {
      assert a in targets;
      OutcomeIsAfter(d, joined, WiresOf(settled), fates(a));
    }
  }

  lemma OutcomeIsAfter(d: Delivery, joined: set<Account>, wires: map<Account, Wire>, fate: Fate)
    requires d.state != Sent && d.account in joined
    requires d.account in wires <==> d.wire.Some?
    requires d.wire.Some? ==> wires[d.account] == d.wire.value
    ensures Noted(d, Outcome(d.account, wires, fate)) == After(d, joined, fate)
  {
  }

  lemma TargetIffOwed(ds: seq<Delivery>, joined: set<Account>, i: nat)
    requires DistinctAccounts(ds) && i < |ds|
    ensures ds[i].account in Targets(ds, joined) <==> ds[i].state != Sent && ds[i].account in joined
  {
    TargetsMembers(ds, joined, ds[i].account);
  }

  // ---------------------------------------------------------------------
  // Whole runs of one message
  // ---------------------------------------------------------------------

  /** A post, with what was true of the recipient when it was made. */
  datatype Post = Post(copy: Copy, original: bool, joined: bool, unsent: bool)

  /**
   original: who the message was first addressed to; composed: the members joined
   then; joined: those joined now. unsent: the call that composed the message has
   not begun its fan-out. queue: copies in recipients' server queues, where a wire
   id is a primary key. loose: accounts posted to, under an id that was on no record,
   by an attempt that did not get to record it; reposted: those posted to again.
   */
  datatype World = World(
    message: Message, joined: set<Account>, original: set<Account>, composed: set<Account>, unsent: bool,
    posts: set<Post>, queue: set<Copy>, transcripts: map<Account, seq<MessageId>>,
    loose: set<Account>, reposted: set<Account>, nextWire: Wire)

  /**
   An attempt runs to its end, or is cut off after recording the outcomes of its first
   targets only: by the end of the process, or by an error the caller still marks. A
   target an attempt did not get to is Blocked to it. UploadFails: the first call gives
   up before its fan-out. Reopen: the account is opened by a new process.
   */
  datatype Step =
    | Attempt(fates: Account -> Fate, bound: Wire)
    | CutOff(fates: Account -> Fate, bound: Wire, done: nat, marked: bool)
    | UploadFails
    | Reopen
    | MembershipChanges(joined: set<Account>)
    | Arrives(copy: Copy)
    | Handled(copy: Copy)
    | Acknowledged(copy: Copy)
    | OtherMessage(account: Account, id: MessageId)

  /** storeGroupMessage: one line per id, however many envelopes carry it. */
  function Store(lines: seq<MessageId>, id: MessageId): seq<MessageId> {
    if id in lines then lines else lines + [id]
  }

  function File(transcripts: map<Account, seq<MessageId>>, a: Account, id: MessageId): map<Account, seq<MessageId>> {
    transcripts[a := Store(if a in transcripts then transcripts[a] else [], id)]
  }

  /** Attempts mint wire ids nobody has used. */
  ghost predicate FreshMints(w: World, fates: Account -> Fate, bound: Wire) {
    w.nextWire <= bound && forall a :: a in w.original && fates(a).Posted? ==> w.nextWire <= fates(a).minted < bound
  }

  /** The first fan-out once, then retries of a message that is not still sending. */
  ghost predicate Enabled(w: World, fates: Account -> Fate, bound: Wire) {
    (w.unsent || w.message.state != Pending) && FreshMints(w, fates, bound)
  }

  /** The membership an attempt goes by: at first the one the message was composed for, on a retry the current one. */
  function JoinedFor(w: World): set<Account> {
    if w.unsent then w.composed else w.joined
  }

  function TargetsOf(w: World): seq<Account> {
    Targets(w.message.deliveries, JoinedFor(w))
  }

  /** An attempt that posts to every target and records the outcomes of the first ones. */
  ghost function Attempted(w: World, fates: Account -> Fate, bound: Wire, done: nat, state: SendState): World
    requires done <= |TargetsOf(w)|
  {
    var ds, joined, targets := w.message.deliveries, JoinedFor(w), TargetsOf(w);
    var wires := WiresOf(Settle(ds, joined));
    var made := set c | c in Posts(targets, wires, fates) ::
      Post(c, c.account in w.original, c.account in joined,
           exists i :: 0 <= i < |ds| && ds[i].account == c.account && ds[i].state != Sent);
    var unrecorded := set a | a in targets && fates(a).Posted? && a !in wires && a !in targets[..done];
    var again := set a | a in targets && fates(a).Posted? && a !in wires && a in w.loose;
    w.(message := Message(state, Merge(Settle(ds, joined), FanOut(targets[..done], wires, fates))), unsent := false,
       posts := w.posts + made, loose := w.loose + unrecorded, reposted := w.reposted + again, nextWire := bound)
  }

  ghost function Complete(w: World, fates: Account -> Fate, bound: Wire): World {
    var targets := TargetsOf(w);
    var tried := Attempted(w, fates, bound, |targets|, Failed);
    var nothingLeft := targets == [] && !w.unsent;
    tried.(message := tried.message.(state := if nothingLeft then Sent else StateOf(tried.message.deliveries)))
  }

  ghost function Apply(w: World, id: MessageId, step: Step): World {
    match step
    case Attempt(fates, bound) => if Enabled(w, fates, bound) then Complete(w, fates, bound) else w
    case CutOff(fates, bound, done, marked) =>
      if Enabled(w, fates, bound) && done <= |TargetsOf(w)|
      then Attempted(w, fates, bound, done, if marked then Failed else Pending) else w
    case UploadFails =>
      if w.unsent then w.(message := w.message.(state := Failed), unsent := false) else w
    case Reopen => w.(message := Reopened(w.message), unsent := false)
    case MembershipChanges(joined) => w.(joined := joined)
    case Arrives(copy) => if PostedUnder(w.posts, copy) then w.(queue := w.queue + {copy}) else w
    case Handled(copy) =>
      if copy in w.queue then w.(transcripts := File(w.transcripts, copy.account, id)) else w
    case Acknowledged(copy) => w.(queue := w.queue - {copy})
    case OtherMessage(account, other) => w.(transcripts := File(w.transcripts, account, other))
  }

  /** A message is addressed to joined members, each once. */
  predicate Addressed(recipients: seq<Account>, joined: set<Account>) {
    Distinct(recipients) && forall a :: a in recipients ==> a in joined
  }

  function Start(recipients: seq<Account>, joined: set<Account>): World {
    var pending := seq(|recipients|, i requires 0 <= i < |recipients| => Delivery(recipients[i], Pending, None));
    World(Message(Pending, pending), joined, (set a | a in recipients), joined, true, {}, {}, map[], {}, {}, 0)
  }

  ghost function Run(w: World, id: MessageId, steps: seq<Step>): World {
    if steps == [] then w else Apply(Run(w, id, steps[..|steps| - 1]), id, steps[|steps| - 1])
  }

  // ---------------------------------------------------------------------
  // Invariant
  // ---------------------------------------------------------------------

  /** Two copies went to the account under different wire ids. */
  ghost predicate TwoWires(posts: set<Post>, a: Account) {
    exists p, q :: p in posts && q in posts && p.copy.account == q.copy.account == a && p.copy.wire != q.copy.wire
  }

  ghost predicate PostedUnder(posts: set<Post>, c: Copy) {
    exists p :: p in posts && p.copy == c
  }

  ghost predicate PostedEver(posts: set<Post>, a: Account) {
    exists p :: p in posts && p.copy.account == a
  }

  /** How an account's record and history hang together. */
  ghost predicate RecordInv(posts: set<Post>, loose: bool, reposted: bool, next: Wire, d: Delivery) {
    && (forall p :: p in posts && p.copy.account == d.account ==> p.copy.wire < next)
    && (d.wire.Some? ==> d.wire.value < next && PostedUnder(posts, Copy(d.account, d.wire.value)))
    && (!loose ==> !reposted && forall p :: p in posts && p.copy.account == d.account ==> d.wire == Some(p.copy.wire))
    && (loose && !reposted ==> d.wire.None? && !TwoWires(posts, d.account) && PostedEver(posts, d.account))
    && (reposted ==> TwoWires(posts, d.account))
  }

  ghost predicate RecordOk(w: World, d: Delivery) {
    RecordInv(w.posts, d.account in w.loose, d.account in w.reposted, w.nextWire, d)
  }

  ghost predicate Inv(w: World) {
    var ds := w.message.deliveries;
    && DistinctAccounts(ds) && w.original == AccountsOf(ds)
    && (forall p :: p in w.posts ==> p.original && p.joined && p.unsent && p.copy.account in w.original)
    && (forall i :: 0 <= i < |ds| ==> RecordOk(w, ds[i]))
    && (forall c :: c in w.queue ==> PostedUnder(w.posts, c))
    && (forall a :: a in w.transcripts ==> Distinct(w.transcripts[a]))
  }

  /** The attempt addresses the record. */
  predicate Addresses(w: World, d: Delivery) {
    d.state != Sent && d.account in JoinedFor(w)
  }

  /** An attempt adds to the account's posts the one copy its fate allows, under the id on record if there is one. */
  ghost predicate Extends(posts: set<Post>, posts': set<Post>, d: Delivery, joined: set<Account>, fate: Fate) {
    var posted := d.state != Sent && d.account in joined && fate.Posted?;
    && posts <= posts'
    && (forall p :: p in posts' && p !in posts && p.copy.account == d.account ==>
          posted && p.copy.wire == if d.wire.Some? then d.wire.value else fate.minted)
    && (posted ==> PostedUnder(posts', Copy(d.account, if d.wire.Some? then d.wire.value else fate.minted)))
  }

  /** One record through one attempt, its outcome recorded or not. */
  lemma RecordStep(posts: set<Post>, posts': set<Post>, loose: bool, reposted: bool, next: Wire, bound: Wire,
                   d: Delivery, joined: set<Account>, fate: Fate, recorded: bool)
    requires RecordInv(posts, loose, reposted, next, d) && next <= bound
    requires fate.Posted? ==> next <= fate.minted < bound
    requires Extends(posts, posts', d, joined, fate)
    ensures var posted := d.state != Sent && d.account in joined && fate.Posted? && d.wire.None?;
            RecordInv(posts', loose || (posted && !recorded), reposted || (posted && loose), bound,
                      After(d, joined, if recorded then fate else Blocked))
  {
    var posted := d.state != Sent && d.account in joined && fate.Posted? && d.wire.None?;
    if d.wire.Some? {
      var p :| p in posts && p.copy == Copy(d.account, d.wire.value);
      assert p in posts';
    }
    if TwoWires(posts, d.account) {
      var p, q :| p in posts && q in posts && p.copy.account == q.copy.account == d.account
                  && p.copy.wire != q.copy.wire;
      assert p in posts' && q in posts';
    }
    if posted {
      var q :| q in posts' && q.copy == Copy(d.account, fate.minted);
      if loose && !reposted {
        var p :| p in posts && p.copy.account == d.account;
        assert p in posts' && p.copy.wire != q.copy.wire;
      }
    } else if loose && !reposted {
      var p :| p in posts && p.copy.account == d.account;
      assert p in posts';
    }
  }

  /** What an attempt adds to one account's posts. */
  lemma AttemptPostsTo(ds: seq<Delivery>, joined: set<Account>, fates: Account -> Fate, i: nat, c: Copy)
    requires DistinctAccounts(ds) && i < |ds| && c.account == ds[i].account
    ensures var settled := Settle(ds, joined);
            c in Posts(Targets(ds, joined), WiresOf(settled), fates) <==>
              && ds[i].state != Sent && ds[i].account in joined && fates(c.account).Posted?
              && c.wire == if ds[i].wire.Some? then ds[i].wire.value else fates(c.account).minted
  {
    var settled := Settle(ds, joined);
    PostsMembers(Targets(ds, joined), WiresOf(settled), fates, c);
    TargetIffOwed(ds, joined, i);
    assert DistinctAccounts(settled) && settled[i].account == c.account && settled[i].wire == ds[i].wire;
    WiresOfLookup(settled, i);
  }

  /** Which of the history flags an attempt raises for one account, and what becomes of its record. */
  lemma AttemptFlags(w: World, fates: Account -> Fate, bound: Wire, done: nat, state: SendState, i: nat)
    requires DistinctAccounts(w.message.deliveries) && i < |w.message.deliveries| && done <= |TargetsOf(w)|
    ensures var w', d := Attempted(w, fates, bound, done, state), w.message.deliveries[i];
            var posted := Addresses(w, d) && fates(d.account).Posted? && d.wire.None?;
            var recorded := d.account in TargetsOf(w)[..done];
            && (d.account in w'.loose <==> d.account in w.loose || (posted && !recorded))
            && (d.account in w'.reposted <==> d.account in w.reposted || (posted && d.account in w.loose))
            && w'.message.deliveries[i] == After(d, JoinedFor(w), if recorded then fates(d.account) else Blocked)
  {
    var ds, joined := w.message.deliveries, JoinedFor(w);
    var settled := Settle(ds, joined);
    RetryRecord(ds, joined, fates, done, i);
    TargetIffOwed(ds, joined, i);
    assert DistinctAccounts(settled) && settled[i].account == ds[i].account && settled[i].wire == ds[i].wire;
    WiresOfLookup(settled, i);
  }

  lemma AttemptMade(w: World, fates: Account -> Fate, bound: Wire, done: nat, state: SendState, i: nat)
    requires DistinctAccounts(w.message.deliveries) && i < |w.message.deliveries| && done <= |TargetsOf(w)|
    ensures var w', d := Attempted(w, fates, bound, done, state), w.message.deliveries[i];
            Extends(w.posts, w'.posts, d, JoinedFor(w), fates(d.account))
  {
    var ds, joined := w.message.deliveries, JoinedFor(w);
    var w', d := Attempted(w, fates, bound, done, state), ds[i];
    forall p | p in w'.posts && p !in w.posts && p.copy.account == d.account
      ensures Addresses(w, d) && fates(d.account).Posted?
      ensures p.copy.wire == if d.wire.Some? then d.wire.value else fates(d.account).minted
    {
      AttemptPostsTo(ds, joined, fates, i, p.copy);
    }
    if Addresses(w, d) && fates(d.account).Posted? {
      var c := Copy(d.account, if d.wire.Some? then d.wire.value else fates(d.account).minted);
      AttemptPostsTo(ds, joined, fates, i, c);
      var made := Post(c, c.account in w.original, c.account in joined,
                       exists k :: 0 <= k < |ds| && ds[k].account == c.account && ds[k].state != Sent);
      assert made in w'.posts && made.copy == c;
    }
  }

  lemma AttemptRecord(w: World, fates: Account -> Fate, bound: Wire, done: nat, state: SendState, i: nat)
    requires DistinctAccounts(w.message.deliveries) && i < |w.message.deliveries| && done <= |TargetsOf(w)|
    requires var d := w.message.deliveries[i];
             d.account in w.original && FreshMints(w, fates, bound) && RecordOk(w, d)
    ensures var w' := Attempted(w, fates, bound, done, state); RecordOk(w', w'.message.deliveries[i])
  {
    var d, w' := w.message.deliveries[i], Attempted(w, fates, bound, done, state);
    AttemptFlags(w, fates, bound, done, state, i);
    AttemptMade(w, fates, bound, done, state, i);
    RecordStep(w.posts, w'.posts, d.account in w.loose, d.account in w.reposted, w.nextWire, bound,
               d, JoinedFor(w), fates(d.account), d.account in TargetsOf(w)[..done]);
  }

  lemma AttemptPosts(w: World, fates: Account -> Fate, bound: Wire, done: nat, state: SendState)
    requires Inv(w) && done <= |TargetsOf(w)|
    ensures forall p :: p in Attempted(w, fates, bound, done, state).posts ==>
              p.original && p.joined && p.unsent && p.copy.account in w.original
  {
    var ds, joined := w.message.deliveries, JoinedFor(w);
    forall p | p in Attempted(w, fates, bound, done, state).posts && p !in w.posts
      ensures p.original && p.joined && p.unsent && p.copy.account in w.original
    {
      PostsMembers(TargetsOf(w), WiresOf(Settle(ds, joined)), fates, p.copy);
      TargetsMembers(ds, joined, p.copy.account);
      var i :| 0 <= i < |ds| && ds[i].account == p.copy.account && ds[i].state != Sent && p.copy.account in joined;
      assert ds[i] in ds;
    }
  }

  lemma AttemptKeeps(w: World, fates: Account -> Fate, bound: Wire, done: nat, state: SendState)
    requires Inv(w) && FreshMints(w, fates, bound) && done <= |TargetsOf(w)|
    ensures Inv(Attempted(w, fates, bound, done, state))
  {
    var ds := w.message.deliveries;
    var w' := Attempted(w, fates, bound, done, state);
    var ds' := w'.message.deliveries;
    forall i | 0 <= i < |ds|
      ensures ds'[i].account == ds[i].account && RecordOk(w', ds'[i])
    {
      assert ds[i] in ds;
      AttemptFlags(w, fates, bound, done, state, i);
      AttemptRecord(w, fates, bound, done, state, i);
    }
    AttemptPosts(w, fates, bound, done, state);
    SameAccounts(ds, ds');
    forall c | c in w.queue ensures PostedUnder(w'.posts, c) {
      var p :| p in w.posts && p.copy == c;
      assert p in w'.posts;
    }
  }

  lemma SameAccounts(ds: seq<Delivery>, ds': seq<Delivery>)
    requires |ds| == |ds'| && forall i :: 0 <= i < |ds| ==> ds'[i].account == ds[i].account
    ensures AccountsOf(ds) == AccountsOf(ds')
    ensures DistinctAccounts(ds) ==> DistinctAccounts(ds')
  {
    forall i | 0 <= i < |ds| ensures ds[i].account in AccountsOf(ds') && ds'[i].account in AccountsOf(ds) {
      assert ds[i] in ds && ds'[i] in ds';
    }
  }

  /** Only the states of records change, not their wire ids. */
  lemma StatesKeep(w: World, m: Message, unsent: bool)
    requires Inv(w) && |m.deliveries| == |w.message.deliveries|
    requires forall i :: 0 <= i < |m.deliveries| ==>
               m.deliveries[i].account == w.message.deliveries[i].account
               && m.deliveries[i].wire == w.message.deliveries[i].wire
    ensures Inv(w.(message := m, unsent := unsent))
  {
    SameAccounts(w.message.deliveries, m.deliveries);
    forall i | 0 <= i < |m.deliveries| ensures RecordOk(w.(message := m, unsent := unsent), m.deliveries[i]) {
      assert RecordOk(w, w.message.deliveries[i]);
    }
  }

  lemma FileKeeps(transcripts: map<Account, seq<MessageId>>, a: Account, id: MessageId)
    requires forall b :: b in transcripts ==> Distinct(transcripts[b])
    ensures forall b :: b in File(transcripts, a, id) ==> Distinct(File(transcripts, a, id)[b])
  {
  }

  lemma CompleteKeeps(w: World, fates: Account -> Fate, bound: Wire)
    requires Inv(w) && FreshMints(w, fates, bound)
    ensures Inv(Complete(w, fates, bound))
  {
    var tried := Attempted(w, fates, bound, |TargetsOf(w)|, Failed);
    AttemptKeeps(w, fates, bound, |TargetsOf(w)|, Failed);
    StatesKeep(tried, Complete(w, fates, bound).message, tried.unsent);
  }

  lemma StepKeeps(w: World, id: MessageId, step: Step)
    requires Inv(w)
    ensures Inv(Apply(w, id, step))
  {
    match step
    case Attempt(fates, bound) =>
      if Enabled(w, fates, bound) {
        CompleteKeeps(w, fates, bound);
      }
    case CutOff(fates, bound, done, marked) =>
      if Enabled(w, fates, bound) && done <= |TargetsOf(w)| {
        AttemptKeeps(w, fates, bound, done, if marked then Failed else Pending);
      }
    case UploadFails => StatesKeep(w, w.message.(state := Failed), false);
    case Reopen => StatesKeep(w, Reopened(w.message), false);
    case Handled(copy) => FileKeeps(w.transcripts, copy.account, id);
    case OtherMessage(account, other) => FileKeeps(w.transcripts, account, other);
    case _ =>
  }

  lemma StartKeeps(recipients: seq<Account>, joined: set<Account>)
    requires Addressed(recipients, joined)
    ensures Inv(Start(recipients, joined))
  {
    var w := Start(recipients, joined);
    var ds := w.message.deliveries;
    forall a | a in w.original ensures a in AccountsOf(ds) {
      var i :| 0 <= i < |recipients| && recipients[i] == a;
      assert ds[i].account == a && ds[i] in ds;
    }
  }

  lemma StepAddressees(w: World, id: MessageId, step: Step)
    ensures Apply(w, id, step).original == w.original
  {
  }

  lemma {:induction false} RunKeeps(recipients: seq<Account>, joined: set<Account>, id: MessageId, steps: seq<Step>)
    requires Addressed(recipients, joined)
    ensures Inv(Run(Start(recipients, joined), id, steps))
    ensures Run(Start(recipients, joined), id, steps).original == set a | a in recipients
  {
    StartKeeps(recipients, joined);
    if steps != [] {
      var n := |steps| - 1;
      RunKeeps(recipients, joined, id, steps[..n]);
      StepKeeps(Run(Start(recipients, joined), id, steps[..n]), id, steps[n]);
      StepAddressees(Run(Start(recipients, joined), id, steps[..n]), id, steps[n]);
    }
  }

  // ---------------------------------------------------------------------
  // What a group send promises
  // ---------------------------------------------------------------------

  /** However often a copy is posted, arrives or is handled, a transcript holds the message at most once. */
  lemma {:induction false} OneLinePerMessage(recipients: seq<Account>, joined: set<Account>, id: MessageId,
                                             steps: seq<Step>, a: Account, i: nat, j: nat)
    requires Addressed(recipients, joined)
    requires var w := Run(Start(recipients, joined), id, steps);
             a in w.transcripts && i < |w.transcripts[a]| && j < |w.transcripts[a]|
    ensures var lines := Run(Start(recipients, joined), id, steps).transcripts[a];
            lines[i] == id && lines[j] == id ==> i == j
  {
    RunKeeps(recipients, joined, id, steps);
  }

  /** The account's transcript of the group, empty before its first line. */
  function Lines(w: World, a: Account): seq<MessageId> {
    if a in w.transcripts then w.transcripts[a] else []
  }

  /** The account handles a copy from its queue, or files a line of that id otherwise. */
  predicate Files(w: World, id: MessageId, step: Step, a: Account) {
    (step.Handled? && step.copy in w.queue && step.copy.account == a) || step == OtherMessage(a, id)
  }

  /** Some step of the run does. */
  ghost predicate Filed(w: World, id: MessageId, steps: seq<Step>, a: Account) {
    steps != [] &&
    var n := |steps| - 1;
    Filed(w, id, steps[..n], a) || Files(Run(w, id, steps[..n]), id, steps[n], a)
  }

  /** A step adds at most one line, at the end. */
  lemma LinesStep(w: World, id: MessageId, step: Step, a: Account)
    ensures Lines(w, a) <= Lines(Apply(w, id, step), a)
    ensures id in Lines(Apply(w, id, step), a) <==> id in Lines(w, a) || Files(w, id, step, a)
  {
  }

  lemma {:induction false} FiledIsHistory(recipients: seq<Account>, joined: set<Account>, id: MessageId,
                                          steps: seq<Step>, a: Account)
    ensures var w0 := Start(recipients, joined); id in Lines(Run(w0, id, steps), a) <==> Filed(w0, id, steps, a)
  {
    if steps != [] {
      var n := |steps| - 1;
      FiledIsHistory(recipients, joined, id, steps[..n], a);
      LinesStep(Run(Start(recipients, joined), id, steps[..n]), id, steps[n], a);
    }
  }

  lemma {:induction false} DistinctCount(lines: seq<MessageId>, id: MessageId)
    requires Distinct(lines)
    ensures multiset(lines)[id] == if id in lines then 1 else 0
  {
    if lines != [] {
      var n := |lines| - 1;
      DistinctCount(lines[..n], id);
      assert lines == lines[..n] + [lines[n]];
    }
  }

  /** In every run a transcript holds the message once if the account handled a copy, however many, and else never. */
  lemma FiledExactly(recipients: seq<Account>, joined: set<Account>, id: MessageId, steps: seq<Step>, a: Account)
    requires Addressed(recipients, joined)
    ensures var w0 := Start(recipients, joined);
            multiset(Lines(Run(w0, id, steps), a))[id] == if Filed(w0, id, steps, a) then 1 else 0
  {
    RunKeeps(recipients, joined, id, steps);
    FiledIsHistory(recipients, joined, id, steps, a);
    DistinctCount(Lines(Run(Start(recipients, joined), id, steps), a), id);
  }

  /** Lines once filed keep their places. */
  lemma {:induction false} LinesKeepTheirOrder(w: World, id: MessageId, more: seq<Step>, a: Account)
    ensures Lines(w, a) <= Lines(Run(w, id, more), a)
  {
    if more != [] {
      var n := |more| - 1;
      LinesKeepTheirOrder(w, id, more[..n], a);
      LinesStep(Run(w, id, more[..n]), id, more[n], a);
    }
  }

  /** Any copy ever posted that arrives and is handled has its line, and handling another leaves the transcript. */
  lemma PostedCopyIsRead(w: World, id: MessageId, c: Copy, e: Copy)
    requires Inv(w) && PostedUnder(w.posts, c) && PostedUnder(w.posts, e) && c.account == e.account
    ensures var read := Apply(Apply(w, id, Arrives(c)), id, Handled(c));
            && c in read.queue && c !in Apply(read, id, Acknowledged(c)).queue
            && multiset(Lines(read, c.account))[id] == 1
            && Apply(Apply(read, id, Arrives(e)), id, Handled(e)).transcripts == read.transcripts
  {
    var arrived := Apply(w, id, Arrives(c));
    var read := Apply(arrived, id, Handled(c));
    StepKeeps(w, id, Arrives(c));
    StepKeeps(arrived, id, Handled(c));
    DistinctCount(Lines(read, c.account), id);
  }

  /** Every post ever made went to an original recipient, joined at the time and not recorded as sent. */
  lemma OnlyOwedMembersArePostedTo(recipients: seq<Account>, joined: set<Account>, id: MessageId, steps: seq<Step>)
    requires Addressed(recipients, joined)
    ensures forall p :: p in Run(Start(recipients, joined), id, steps).posts ==>
              p.copy.account in recipients && p.original && p.joined && p.unsent
  {
    RunKeeps(recipients, joined, id, steps);
  }

  // ---------------------------------------------------------------------
  // Wire ids
  // ---------------------------------------------------------------------

  /** The fates of an attempt that goes ahead in this step, complete or cut off. */
  ghost predicate Tries(w: World, step: Step) {
    || (step.Attempt? && Enabled(w, step.fates, step.bound))
    || (step.CutOff? && Enabled(w, step.fates, step.bound) && step.done <= |TargetsOf(w)|)
  }

  /** The attempt posts a copy to the account, whose record is d. */
  ghost predicate PostsTo(w: World, step: Step, a: Account, d: Delivery) {
    && Tries(w, step) && d in w.message.deliveries && d.account == a && Addresses(w, d)
    && step.fates(a).Posted?
  }

  /** An attempt is cut off that posted a copy under a new wire id and did not get to record it. */
  ghost predicate Loosens(w: World, step: Step, a: Account) {
    && step.CutOff?
    && exists d :: PostsTo(w, step, a, d) && d.wire.None? && a !in TargetsOf(w)[..step.done]
  }

  /** Some step of the run does. */
  ghost predicate Loosened(w: World, id: MessageId, steps: seq<Step>, a: Account) {
    steps != [] &&
    var n := |steps| - 1;
    Loosened(w, id, steps[..n], a) || Loosens(Run(w, id, steps[..n]), steps[n], a)
  }

  ghost predicate PostsSome(w: World, step: Step, a: Account) {
    exists d :: PostsTo(w, step, a, d)
  }

  /** Some step of the run does, and a later one posts. */
  ghost predicate PostedAfterCut(w: World, id: MessageId, steps: seq<Step>, a: Account) {
    steps != [] &&
    var n := |steps| - 1;
    || PostedAfterCut(w, id, steps[..n], a)
    || (Loosened(w, id, steps[..n], a) && PostsSome(Run(w, id, steps[..n]), steps[n], a))
  }

  /** Record i is the account's, and the only one. */
  ghost predicate RecordOf(w: World, a: Account, i: nat) {
    && i < |w.message.deliveries| && w.message.deliveries[i].account == a
    && (forall d :: d in w.message.deliveries && d.account == a ==> d == w.message.deliveries[i])
    && RecordOk(w, w.message.deliveries[i])
  }

  lemma RecordExists(w: World, a: Account)
    requires Inv(w) && a in w.original
    ensures exists i: nat :: RecordOf(w, a, i)
  {
    var ds := w.message.deliveries;
    var d :| d in ds && d.account == a;
    var i :| 0 <= i < |ds| && ds[i] == d;
    assert RecordOf(w, a, i);
  }

  lemma FlagsStep(w: World, id: MessageId, step: Step, a: Account)
    requires Inv(w) && a in w.original
    ensures var w' := Apply(w, id, step);
            && (a in w'.loose <==> a in w.loose || Loosens(w, step, a))
            && (a in w'.reposted <==> a in w.reposted || (a in w.loose && PostsSome(w, step, a)))
  {
    if Tries(w, step) {
      RecordExists(w, a);
      var i: nat :| RecordOf(w, a, i);
      var d := w.message.deliveries[i];
      var done := if step.CutOff? then step.done else |TargetsOf(w)|;
      AttemptFlags(w, step.fates, step.bound, done, if step.CutOff? && !step.marked then Pending else Failed, i);
      TargetIffOwed(w.message.deliveries, JoinedFor(w), i);
      assert TargetsOf(w)[..|TargetsOf(w)|] == TargetsOf(w);
      assert Addresses(w, d) && step.fates(a).Posted? ==> PostsTo(w, step, a, d);
    }
  }

  lemma {:induction false} FlagsAreHistory(recipients: seq<Account>, joined: set<Account>, id: MessageId,
                                           steps: seq<Step>, a: Account)
    requires Addressed(recipients, joined) && a in recipients
    ensures var w0 := Start(recipients, joined);
            var w := Run(w0, id, steps);
            && (a in w.loose <==> Loosened(w0, id, steps, a))
            && (a in w.reposted <==> PostedAfterCut(w0, id, steps, a))
  {
    if steps != [] {
      var n := |steps| - 1;
      FlagsAreHistory(recipients, joined, id, steps[..n], a);
      RunKeeps(recipients, joined, id, steps[..n]);
      FlagsStep(Run(Start(recipients, joined), id, steps[..n]), id, steps[n], a);
    }
  }

  /**
   Over every run, a recipient's server sees a second wire id exactly when an attempt
   that had posted a copy under a new id was cut off before recording it, and a later
   attempt posted.
   */
  lemma WireIdReusedExactly(recipients: seq<Account>, joined: set<Account>, id: MessageId, steps: seq<Step>, a: Account)
    requires Addressed(recipients, joined) && a in recipients
    ensures var w0 := Start(recipients, joined);
            TwoWires(Run(w0, id, steps).posts, a) <==> PostedAfterCut(w0, id, steps, a)
  {
    RunKeeps(recipients, joined, id, steps);
    FlagsAreHistory(recipients, joined, id, steps, a);
    var w := Run(Start(recipients, joined), id, steps);
    RecordExists(w, a);
    var i: nat :| RecordOf(w, a, i);
  }

  /** So otherwise a recipient's queue holds at most one copy of the message at any time. */
  lemma AtMostOneCopyQueued(recipients: seq<Account>, joined: set<Account>, id: MessageId, steps: seq<Step>,
                            c: Copy, e: Copy)
    requires Addressed(recipients, joined) && c.account in recipients && c.account == e.account
    requires !PostedAfterCut(Start(recipients, joined), id, steps, c.account)
    ensures var queue := Run(Start(recipients, joined), id, steps).queue; c in queue && e in queue ==> c == e
  {
    RunKeeps(recipients, joined, id, steps);
    WireIdReusedExactly(recipients, joined, id, steps, c.account);
    var w := Run(Start(recipients, joined), id, steps);
    if c in w.queue && e in w.queue {
      var p :| p in w.posts && p.copy == c;
      var q :| q in w.posts && q.copy == e;
      assert c.wire == e.wire;
    }
  }

  lemma {:induction false} NothingLoosened(w: World, id: MessageId, steps: seq<Step>, a: Account)
    requires forall step :: step in steps ==> !step.CutOff?
    ensures !Loosened(w, id, steps, a) && !PostedAfterCut(w, id, steps, a)
  {
    if steps != [] {
      NothingLoosened(w, id, steps[..|steps| - 1], a);
    }
  }

  /** In every run of attempts that reach their end, whatever fails to prepare, post or answer, no recipient's server
      ever sees a second wire id. */
  lemma OneWireWithoutCutOffs(recipients: seq<Account>, joined: set<Account>, id: MessageId, steps: seq<Step>,
                              a: Account)
    requires Addressed(recipients, joined) && a in recipients
    requires forall step :: step in steps ==> !step.CutOff?
    ensures !TwoWires(Run(Start(recipients, joined), id, steps).posts, a)
  {
    NothingLoosened(Start(recipients, joined), id, steps, a);
    WireIdReusedExactly(recipients, joined, id, steps, a);
  }

  // ---------------------------------------------------------------------
  // The run that posts under two ids
  // ---------------------------------------------------------------------

  /** The state of a message with a single recipient between its steps. */
  ghost predicate Single(w: World, a: Account, unsent: bool, m: Message, next: Wire) {
    && Inv(w) && w.joined == {a} && w.composed == {a} && w.original == {a} && w.unsent == unsent
    && w.message == m && |m.deliveries| == 1 && m.deliveries[0].account == a && w.nextWire == next
  }

  lemma SingleStart(a: Account)
    ensures Single(Start([a], {a}), a, true, Message(Pending, [Delivery(a, Pending, None)]), 0)
  {
    StartKeeps([a], {a});
    assert Start([a], {a}).message.deliveries == [Delivery(a, Pending, None)];
  }

  /** The process ends after the post and before anything is recorded. */
  lemma SingleCutOff(w: World, id: MessageId, a: Account, fates: Account -> Fate)
    requires Single(w, a, true, Message(Pending, [Delivery(a, Pending, None)]), 0) && fates(a) == Posted(0, true)
    ensures Loosens(w, CutOff(fates, 1, 0, false), a)
    ensures Single(Apply(w, id, CutOff(fates, 1, 0, false)), a, false,
                   Message(Pending, [Delivery(a, Pending, None)]), 1)
  {
    var d := Delivery(a, Pending, None);
    assert w.message.deliveries[0] == d;
    assert PostsTo(w, CutOff(fates, 1, 0, false), a, d);
    AttemptKeeps(w, fates, 1, 0, Pending);
    AttemptFlags(w, fates, 1, 0, Pending, 0);
    var w' := Attempted(w, fates, 1, 0, Pending);
    assert w'.message.deliveries == [w'.message.deliveries[0]];
  }

  lemma SingleReopen(w: World, id: MessageId, a: Account)
    requires Single(w, a, false, Message(Pending, [Delivery(a, Pending, None)]), 1)
    ensures Single(Apply(w, id, Reopen), a, false, Message(Failed, [Delivery(a, Failed, None)]), 1)
  {
    StepKeeps(w, id, Reopen);
    assert Unstuck(w.message.deliveries) == [Delivery(a, Failed, None)];
  }

  lemma SingleRetry(w: World, a: Account, fates: Account -> Fate)
    requires Single(w, a, false, Message(Failed, [Delivery(a, Failed, None)]), 1) && fates(a) == Posted(1, true)
    ensures PostsSome(w, Attempt(fates, 2), a)
  {
    assert w.message.deliveries[0] == Delivery(a, Failed, None);
    assert PostsTo(w, Attempt(fates, 2), a, Delivery(a, Failed, None));
  }

  lemma ThreeSteps(w: World, id: MessageId, f: Step, g: Step, h: Step, a: Account)
    requires var w1 := Apply(w, id, f); Loosens(w, f, a) && PostsSome(Apply(w1, id, g), h, a)
    ensures PostedAfterCut(w, id, [f, g, h], a)
  {
    TwoSteps(w, id, f, g, a);
    assert [f, g, h][..2] == [f, g];
  }

  lemma TwoSteps(w: World, id: MessageId, f: Step, g: Step, a: Account)
    requires Loosens(w, f, a)
    ensures Loosened(w, id, [f, g], a) && Run(w, id, [f, g]) == Apply(Apply(w, id, f), id, g)
  {
    assert [f, g][..1] == [f] && [f][..0] == [];
    assert Run(w, id, [f]) == Apply(w, id, f);
    assert Loosened(w, id, [f], a);
  }

  /** The run: the copy is posted, the process ends before recording it, and the retry mints a second id. */
  lemma CutOffPostsTwice(a: Account, id: MessageId, f: Account -> Fate, h: Account -> Fate)
    requires f(a) == Posted(0, true) && h(a) == Posted(1, true)
    ensures TwoWires(Run(Start([a], {a}), id, [CutOff(f, 1, 0, false), Reopen, Attempt(h, 2)]).posts, a)
  {
    var w0 := Start([a], {a});
    SingleStart(a);
    SingleCutOff(w0, id, a, f);
    var w1 := Apply(w0, id, CutOff(f, 1, 0, false));
    SingleReopen(w1, id, a);
    SingleRetry(Apply(w1, id, Reopen), a, h);
    ThreeSteps(w0, id, CutOff(f, 1, 0, false), Reopen, Attempt(h, 2), a);
    WireIdReusedExactly([a], {a}, id, [CutOff(f, 1, 0, false), Reopen, Attempt(h, 2)], a);
  }

  // ---------------------------------------------------------------------
  // What "sent" means
  // ---------------------------------------------------------------------

  /** Some attempt of the run found the account no longer joined. */
  ghost predicate LeftBefore(w: World, id: MessageId, steps: seq<Step>, a: Account) {
    steps != [] &&
    var n := |steps| - 1;
    || LeftBefore(w, id, steps[..n], a)
    || (Tries(Run(w, id, steps[..n]), steps[n]) && a !in JoinedFor(Run(w, id, steps[..n])))
  }

  lemma SentStep(w: World, id: MessageId, step: Step, a: Account, i: nat)
    requires Inv(w) && i < |w.message.deliveries| && w.message.deliveries[i].account == a
    ensures var w' := Apply(w, id, step);
            && |w'.message.deliveries| == |w.message.deliveries| && w'.message.deliveries[i].account == a
            && w.posts <= w'.posts
            && (w'.message.deliveries[i].state == Sent ==>
                  || w.message.deliveries[i].state == Sent || PostedEver(w'.posts, a)
                  || (Tries(w, step) && a !in JoinedFor(w)))
  {
    if Tries(w, step) {
      var done := if step.CutOff? then step.done else |TargetsOf(w)|;
      var state := if step.CutOff? && !step.marked then Pending else Failed;
      AttemptFlags(w, step.fates, step.bound, done, state, i);
      AttemptMade(w, step.fates, step.bound, done, state, i);
    }
  }

  /** Over every run, a recipient's record says sent only if a copy was posted to it or an attempt found it no longer
      joined. */
  lemma {:induction false} SentMeansPostedOrLeft(recipients: seq<Account>, joined: set<Account>, id: MessageId,
                                                 steps: seq<Step>, i: nat)
    requires Addressed(recipients, joined) && i < |recipients|
    ensures var w0 := Start(recipients, joined);
            var w := Run(w0, id, steps);
            && |w.message.deliveries| == |recipients| && w.message.deliveries[i].account == recipients[i]
            && (w.message.deliveries[i].state == Sent ==>
                  PostedEver(w.posts, recipients[i]) || LeftBefore(w0, id, steps, recipients[i]))
  {
    if steps != [] {
      var n := |steps| - 1;
      var w0 := Start(recipients, joined);
      SentMeansPostedOrLeft(recipients, joined, id, steps[..n], i);
      RunKeeps(recipients, joined, id, steps[..n]);
      SentStep(Run(w0, id, steps[..n]), id, steps[n], recipients[i], i);
    }
  }

  /** After a complete attempt the message is never left sending: it is sent exactly if some copy is, or if a retry
      found nobody left to send to. */
  lemma AttemptStateExactly(w: World, id: MessageId, fates: Account -> Fate, bound: Wire)
    requires Enabled(w, fates, bound)
    ensures var m := Apply(w, id, Attempt(fates, bound)).message;
            && m.state != Pending
            && (m.state == Sent <==>
                  || (exists d :: d in m.deliveries && d.state == Sent)
                  || (!w.unsent && forall d :: d in w.message.deliveries ==> !Addresses(w, d)))
  {
    var m := Apply(w, id, Attempt(fates, bound)).message;
    if exists d :: d in m.deliveries && d.state == Sent {
      var d :| d in m.deliveries && d.state == Sent;
      var i :| 0 <= i < |m.deliveries| && m.deliveries[i] == d;
      assert AnySent(m.deliveries);
    }
    NobodyLeft(w.message.deliveries, JoinedFor(w));
  }

  /** Whom an attempt addresses: the first one every recipient the message was composed for; once that call is over,
      by its fan-out, by a failed upload or with its process, exactly the members joined by now whose copy is owed. */
  lemma TargetsExactly(w: World, id: MessageId, joined: set<Account>, a: Account)
    ensures var w' := Apply(w, id, MembershipChanges(joined));
            a in TargetsOf(w') <==>
              exists d :: d in w.message.deliveries && d.account == a && d.state != Sent
                          && a in if w.unsent then w.composed else joined
    ensures !Apply(w, id, UploadFails).unsent && !Apply(w, id, Reopen).unsent
    ensures w.unsent ==> var failed := Apply(w, id, UploadFails);
              failed.message == w.message.(state := Failed) && failed.posts == w.posts
    ensures !w.unsent ==> Apply(w, id, UploadFails) == w
  {
    var w' := Apply(w, id, MembershipChanges(joined));
    TargetsMembers(w.message.deliveries, JoinedFor(w'), a);
    if exists d :: d in w.message.deliveries && d.account == a && d.state != Sent && a in JoinedFor(w') {
      var d :| d in w.message.deliveries && d.account == a && d.state != Sent && a in JoinedFor(w');
      var i :| 0 <= i < |w.message.deliveries| && w.message.deliveries[i] == d;
    }
  }

  /** A cut-off attempt leaves the message sending, to be failed when the account is opened again, unless its caller
      still marked it; and records the outcomes of its first targets, as a complete one would. */
  lemma CutOffExactly(w: World, id: MessageId, fates: Account -> Fate, bound: Wire, done: nat, marked: bool)
    requires Enabled(w, fates, bound) && done <= |TargetsOf(w)|
    ensures var m := Apply(w, id, CutOff(fates, bound, done, marked)).message;
            && m.state == (if marked then Failed else Pending)
            && (done == |TargetsOf(w)| ==> m.deliveries == Apply(w, id, Attempt(fates, bound)).message.deliveries)
            && Apply(w, id, CutOff(fates, bound, done, marked)).posts == Apply(w, id, Attempt(fates, bound)).posts
            && Apply(Apply(w, id, CutOff(fates, bound, done, marked)), id, Reopen).message.state == Failed
  {
  }

  lemma NobodyLeft(ds: seq<Delivery>, joined: set<Account>)
    ensures Targets(ds, joined) == [] <==> forall d :: d in ds ==> d.state == Sent || d.account !in joined
  {
    if Targets(ds, joined) == [] {
      forall d | d in ds ensures d.state == Sent || d.account !in joined {
        var i :| 0 <= i < |ds| && ds[i] == d;
        TargetsMembers(ds, joined, d.account);
      }
    } else {
      var a := Targets(ds, joined)[0];
      TargetsMembers(ds, joined, a);
      var i :| 0 <= i < |ds| && ds[i].account == a && ds[i].state != Sent && a in joined;
      assert ds[i] in ds;
    }
  }

  /** Opening the account leaves nothing sending, and changes nothing else: what was sent stays sent, and every copy
      keeps its wire id. */
  lemma {:induction false} ReopenExactly(m: Message, i: nat)
    requires i < |m.deliveries|
    ensures var r := Reopened(m);
            && r.state == (if m.state == Pending then Failed else m.state)
            && |r.deliveries| == |m.deliveries|
            && r.deliveries[i] == m.deliveries[i].(state := if m.deliveries[i].state == Pending then Failed
                                                            else m.deliveries[i].state)
  {
    UnstuckAt(m.deliveries, i);
  }

  lemma {:induction false} UnstuckAt(ds: seq<Delivery>, i: nat)
    requires i < |ds|
    ensures |Unstuck(ds)| == |ds|
    ensures Unstuck(ds)[i] == ds[i].(state := if ds[i].state == Pending then Failed else ds[i].state)
  {
  }

  // ---------------------------------------------------------------------
  // The steps are the calls
  // ---------------------------------------------------------------------

  /** A complete attempt of the run is one call of RetryGroupMessage. */
  lemma CompleteIsRetry(w: World, fates: Account -> Fate, bound: Wire)
    requires !w.unsent && w.message.state != Pending
    ensures Complete(w, fates, bound).message == Retry(w.message, w.joined, fates)
  {
    var targets := TargetsOf(w);
    assert targets[..|targets|] == targets;
  }

  predicate Untried(ds: seq<Delivery>, joined: set<Account>) {
    forall i :: 0 <= i < |ds| ==> ds[i].state == Pending && ds[i].wire.None? && ds[i].account in joined
  }

  lemma {:induction false} UntriedTargets(ds: seq<Delivery>, joined: set<Account>)
    requires Untried(ds, joined)
    ensures Targets(ds, joined) == AccountSeq(ds) && WiresOf(ds) == map[]
  {
    if ds != [] {
      var n := |ds| - 1;
      UntriedTargets(ds[..n], joined);
      assert AccountSeq(ds) == AccountSeq(ds[..n]) + [ds[n].account];
    }
  }

  /** And the first one is the fan-out of the call that composed the message. */
  lemma CompleteIsFirst(w: World, fates: Account -> Fate, bound: Wire)
    requires w.unsent && Untried(w.message.deliveries, w.composed)
    ensures Complete(w, fates, bound).message == First(w.message, fates)
  {
    var ds := w.message.deliveries;
    UntriedTargets(ds, w.composed);
    assert Settle(ds, w.composed) == ds;
    var targets := TargetsOf(w);
    assert targets[..|targets|] == targets;
  }
}

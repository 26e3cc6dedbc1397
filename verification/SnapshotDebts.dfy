/**
 Who is owed the whole fact set of one group (pkg/client/groups.go
 oweGroupSnapshot, clearGroupSnapshotDebt; pkg/client/groupsend.go
 BroadcastGroupEvents, SendGroupSnapshot, ReconcileGroup,
 PayGroupSnapshotDebts). Whether a post succeeds, and whether a server reports
 an account gone, are parameters of each call.
 */
module SnapshotDebts {
  import opened Collections

  /** Account ids, numbered. */
  type Account = nat
  type Hash = string

  /** ok: posts that succeed; gone: accounts their server no longer knows. */
  datatype Network = Network(ok: set<Account>, gone: set<Account>)

  datatype Kind = Events | Snapshot

  datatype Posted = Posted(to: Account, kind: Kind)

  /** founded: facts are held at all. members lists the current membership without ourselves. */
  datatype Ledger = Ledger(
    founded: bool, members: seq<Account>, owed: set<Account>, answered: map<Account, Hash>, posts: seq<Posted>)

  /** On the current member list; without facts there is none. */
  predicate Listed(l: Ledger, a: Account) {
    l.founded && a in l.members
  }

  /** p was posted since the log had length from. */
  predicate PostedSince(posts: seq<Posted>, from: nat, p: Posted) {
    exists i :: from <= i < |posts| && posts[i] == p
  }

  // ---------------------------------------------------------------------
  // The client
  // ---------------------------------------------------------------------

  datatype SendResult = Done | NotAMember | Unreachable

  class GroupPeers {
    var founded: bool
    var members: seq<Account>
    var owed: set<Account>
    var answered: map<Account, Hash>
    var posts: seq<Posted>

    function Value(): Ledger
      reads this
    {
      Ledger(founded, members, owed, answered, posts)
    }

    constructor (founded: bool, members: seq<Account>)
      ensures Value() == Ledger(founded, members, {}, map[], [])
    {
      this.founded, this.members := founded, members;
      owed, answered, posts := {}, map[], [];
    }

    method SendGroupControl(to: Account, kind: Kind, net: Network) returns (ok: bool)
      modifies this`posts
      ensures ok == (to in net.ok)
      ensures posts == if ok then old(posts) + [Posted(to, kind)] else old(posts)
    {
      ok := to in net.ok;
      if ok {
        posts := posts + [Posted(to, kind)];
      }
    }

    /** Every member not skipped is posted to, or recorded as owed. */
    method BroadcastGroupEvents(skip: set<Account>, net: Network)
      modifies this`posts, this`owed
      ensures Value() == Broadcast(old(Value()), skip, net)
      ensures forall m :: m in members && m !in skip && founded ==>
              PostedSince(posts, |old(posts)|, Posted(m, Events)) || m in owed
    {
      if !founded {
        return;
      }
      ghost var before := Value();
      for i := 0 to |members|
        invariant members == before.members && founded
        invariant Value() == BroadcastTo(before, members[..i], skip, net)
      {
        assert members[..i + 1][..i] == members[..i];
        if members[i] !in skip {
          var ok := SendGroupControl(members[i], Events, net);
          if !ok {
            owed := owed + {members[i]};
          }
        }
      }
      assert members[..|members|] == members;
      BroadcastCovers(before, members, skip, net);
    }

    method SendGroupSnapshot(to: Account, net: Network) returns (r: SendResult)
      modifies this`posts, this`owed
      ensures (Value(), r) == SnapshotTo(old(Value()), to, net)
    {
      if !founded {
        return Done;
      }
      if to !in members {
        return NotAMember;
      }
      var ok := SendGroupControl(to, Snapshot, net);
      if !ok {
        return Unreachable;
      }
      owed := owed - {to};
      return Done;
    }

    method MarkGroupHashAnswered(peer: Account, hash: Hash) returns (already: bool)
      modifies this`answered
      ensures already == (peer in old(answered) && old(answered)[peer] == hash)
      ensures answered == if already then old(answered) else old(answered)[peer := hash]
    {
      if peer in answered && answered[peer] == hash {
        return true;
      }
      answered := answered[peer := hash];
      return false;
    }

    /** hash is the peer's stated view, ours our own; wants is an outright request. Without facts of our own nothing is
        answered. */
    method ReconcileGroup(peer: Account, wants: bool, hash: Hash, ours: Hash, net: Network) returns (answering: bool)
      modifies this`posts, this`owed, this`answered
      ensures Value() == Reconcile(old(Value()), peer, wants, hash, ours, net)
      ensures answering <==>
                founded && peer in members
                  && (wants || (hash != "" && hash != ours && !(peer in old(answered) && old(answered)[peer] == hash)))
      ensures answering ==> posts == old(posts) + [Posted(peer, Snapshot)] || peer in owed
    {
      if !founded {
        return false;
      }
      if !wants {
        if hash == "" || hash == ours {
          return false;
        }
        var already := MarkGroupHashAnswered(peer, hash);
        if already {
          return false;
        }
      }
      if peer !in members {
        return false;
      }
      var r := SendGroupSnapshot(peer, net);
      if r != Done {
        owed := owed + {peer};
      }
      return true;
    }

    method ForgetGroup()
      modifies this
      ensures Value() == old(Value()).(founded := false, members := [], owed := {}, answered := map[])
    {
      founded, members, owed, answered := false, [], {}, map[];
    }

    /** order is the sorted list of accounts owed. */
    method PayGroupSnapshotDebts(order: seq<Account>, net: Network) returns (paid: nat, gone: seq<Account>)
      requires Distinct(order) && forall a :: a in order <==> a in owed
      modifies this`posts, this`owed
      ensures Value() == Pay(old(Value()), order, net)
      ensures |posts| == |old(posts)| + paid
      ensures forall a :: a in gone <==> founded && a in order && a in members && a !in net.ok && a in net.gone
    {
      paid, gone := 0, [];
      ghost var before := Value();
      for i := 0 to |order|
        invariant members == before.members && founded == before.founded
        invariant Value() == Pay(before, order[..i], net)
        invariant |posts| == |before.posts| + paid
        invariant forall a :: a in gone <==> founded && a in order[..i] && a in members && a !in net.ok && a in net.gone
      {
        assert order[..i + 1][..i] == order[..i] && order[..i + 1] == order[..i] + [order[i]];
        var account := order[i];
        if !founded || account !in members {
          owed := owed - {account};
        } else {
          var r := SendGroupSnapshot(account, net);
          if r == Done {
            paid := paid + 1;
          } else if account in net.gone {
            owed := owed - {account};
            gone := gone + [account];
          }
        }
      }
      assert order[..|order|] == order;
    }
  }

  // ---------------------------------------------------------------------
  // The same on values
  // ---------------------------------------------------------------------

  function BroadcastTo(l: Ledger, to: seq<Account>, skip: set<Account>, net: Network): Ledger {
    if to == [] then l
    else
      var n := |to| - 1;
      var b := BroadcastTo(l, to[..n], skip, net);
      if to[n] in skip then b
      else if to[n] in net.ok then b.(posts := b.posts + [Posted(to[n], Events)])
      else b.(owed := b.owed + {to[n]})
  }

  function Broadcast(l: Ledger, skip: set<Account>, net: Network): Ledger {
    if l.founded then BroadcastTo(l, l.members, skip, net) else l
  }

  function SnapshotTo(l: Ledger, to: Account, net: Network): (r: (Ledger, SendResult)) {
    if !l.founded then (l, Done)
    else if to !in l.members then (l, NotAMember)
    else if to !in net.ok then (l, Unreachable)
    else (l.(posts := l.posts + [Posted(to, Snapshot)], owed := l.owed - {to}), Done)
  }

  function Reconcile(l: Ledger, peer: Account, wants: bool, hash: Hash, ours: Hash, net: Network): Ledger {
    if !l.founded then l
    else if !wants && (hash == "" || hash == ours || (peer in l.answered && l.answered[peer] == hash)) then l
    else
      var marked := if wants then l else l.(answered := l.answered[peer := hash]);
      if peer !in l.members then marked
      else
        var (sent, r) := SnapshotTo(marked, peer, net);
        if r == Done then sent else sent.(owed := sent.owed + {peer})
  }

  function Pay(l: Ledger, order: seq<Account>, net: Network): Ledger {
    if order == [] then l
    else
      var n := |order| - 1;
      var b := Pay(l, order[..n], net);
      if !Listed(b, order[n]) then b.(owed := b.owed - {order[n]})
      else
        var (sent, r) := SnapshotTo(b, order[n], net);
        if r != Done && order[n] in net.gone then sent.(owed := sent.owed - {order[n]}) else sent
  }

  lemma {:induction false} BroadcastCovers(l: Ledger, to: seq<Account>, skip: set<Account>, net: Network)
    ensures var b := BroadcastTo(l, to, skip, net);
            && l.posts <= b.posts && l.owed <= b.owed
            && b.members == l.members && b.founded == l.founded && b.answered == l.answered
            && forall m :: m in to && m !in skip ==> PostedSince(b.posts, |l.posts|, Posted(m, Events)) || m in b.owed
  {
    if to != [] {
      var n := |to| - 1;
      BroadcastCovers(l, to[..n], skip, net);
      var b, b' := BroadcastTo(l, to[..n], skip, net), BroadcastTo(l, to, skip, net);
      assert to == to[..n] + [to[n]];
      forall m | m in to[..n] && m !in skip
        ensures PostedSince(b'.posts, |l.posts|, Posted(m, Events)) || m in b'.owed
      {
        if m !in b.owed {
          var i :| |l.posts| <= i < |b.posts| && b.posts[i] == Posted(m, Events);
          assert b'.posts[i] == Posted(m, Events);
        }
      }
      if to[n] !in skip && to[n] in net.ok {
        assert b'.posts[|b.posts|] == Posted(to[n], Events);
      }
    }
  }

  // ---------------------------------------------------------------------
  // Debts over whole runs
  // ---------------------------------------------------------------------

  datatype Step =
    | BroadcastStep(skip: set<Account>, net: Network)
    | SnapshotStep(to: Account, net: Network)
    | ReconcileStep(peer: Account, wants: bool, hash: Hash, ours: Hash, net: Network)
    | CopyFails(to: Account)
    | PayStep(order: seq<Account>, net: Network)
    | MembershipChanges(founded: bool, members: seq<Account>)
    | Forget

  function Apply(l: Ledger, step: Step): Ledger {
    match step
    case BroadcastStep(skip, net) => Broadcast(l, skip, net)
    case SnapshotStep(to, net) => SnapshotTo(l, to, net).0
    case ReconcileStep(peer, wants, hash, ours, net) => Reconcile(l, peer, wants, hash, ours, net)
    case CopyFails(to) => l.(owed := l.owed + {to})
    case PayStep(order, net) => Pay(l, order, net)
    case MembershipChanges(founded, members) => l.(founded := founded, members := members)
    case Forget => l.(founded := false, members := [], owed := {}, answered := map[])
  }

  /** The only reasons for which a debt may disappear in a step. */
  predicate Discharged(l: Ledger, step: Step, a: Account) {
    || PostedSince(Apply(l, step).posts, |l.posts|, Posted(a, Snapshot))
    || !Listed(l, a)
    || (step.PayStep? && a in step.net.gone)
    || step.Forget?
  }

  lemma {:induction false} PayDischarges(l: Ledger, order: seq<Account>, net: Network, a: Account)
    ensures var b := Pay(l, order, net);
            && l.posts <= b.posts && b.members == l.members && b.founded == l.founded && b.owed <= l.owed
            && (a in l.owed && a !in b.owed ==>
               PostedSince(b.posts, |l.posts|, Posted(a, Snapshot)) || !Listed(l, a) || a in net.gone)
            && (a in l.owed && a !in order ==> a in b.owed)
  {
    if order != [] {
      var n := |order| - 1;
      PayDischarges(l, order[..n], net, a);
      var b, b' := Pay(l, order[..n], net), Pay(l, order, net);
      assert order == order[..n] + [order[n]];
      if PostedSince(b.posts, |l.posts|, Posted(a, Snapshot)) {
        var i :| |l.posts| <= i < |b.posts| && b.posts[i] == Posted(a, Snapshot);
        assert b'.posts[i] == Posted(a, Snapshot);
      }
      if a in b.owed && a !in b'.owed && |b'.posts| > |b.posts| {
        assert b'.posts[|b.posts|] == Posted(a, Snapshot);
      }
    }
  }

  lemma SnapshotDischarges(l: Ledger, to: Account, net: Network, a: Account)
    ensures var b := SnapshotTo(l, to, net).0;
            l.posts <= b.posts && (a in l.owed && a !in b.owed ==> PostedSince(b.posts, |l.posts|, Posted(a, Snapshot)))
  {
    var b := SnapshotTo(l, to, net).0;
    if |b.posts| > |l.posts| {
      assert b.posts[|l.posts|] == Posted(to, Snapshot);
    }
  }

  lemma StepDischarges(l: Ledger, step: Step, a: Account)
    ensures l.posts <= Apply(l, step).posts
    ensures a in l.owed && a !in Apply(l, step).owed ==> Discharged(l, step, a)
  {
    match step
    case BroadcastStep(skip, net) => BroadcastCovers(l, l.members, skip, net);
    case PayStep(order, net) => PayDischarges(l, order, net, a);
    case SnapshotStep(to, net) => SnapshotDischarges(l, to, net, a);
    case ReconcileStep(peer, wants, hash, ours, net) =>
      SnapshotDischarges(if wants then l else l.(answered := l.answered[peer := hash]), peer, net, a);
    case _ =>
  }

  function Run(l: Ledger, steps: seq<Step>): Ledger {
    if steps == [] then l else Apply(Run(l, steps[..|steps| - 1]), steps[|steps| - 1])
  }

  /** The debt disappears in step i, for one of those reasons. */
  predicate GoesAt(l: Ledger, steps: seq<Step>, i: nat, a: Account)
    requires i < |steps|
  {
    var before := Run(l, steps[..i]);
    a in before.owed && a !in Apply(before, steps[i]).owed && Discharged(before, steps[i], a)
  }

  /** Over any run, a debt that is gone went in a step that posted the snapshot, found the member off the list, or was
      told that the account is gone, or forgot the whole group. */
  lemma {:induction false} DebtsAreConserved(l: Ledger, steps: seq<Step>, a: Account)
    requires a in l.owed && a !in Run(l, steps).owed
    ensures exists i :: 0 <= i < |steps| && GoesAt(l, steps, i, a)
  {
    var n := |steps| - 1;
    var before := Run(l, steps[..n]);
    if a in before.owed {
      StepDischarges(before, steps[n], a);
      assert GoesAt(l, steps, n, a);
    } else {
      DebtsAreConserved(l, steps[..n], a);
      var i :| 0 <= i < n && GoesAt(l, steps[..n], i, a);
      assert steps[..n][..i] == steps[..i];
      assert GoesAt(l, steps, i, a);
    }
  }

  /** A pass leaves open only debts of listed members it could not reach and that are not gone. */
  lemma {:induction false} PayingSettlesReachable(l: Ledger, order: seq<Account>, net: Network, a: Account)
    requires a in order
    ensures a in Pay(l, order, net).owed ==> a in l.owed && Listed(l, a) && a !in net.ok && a !in net.gone
  {
    var n := |order| - 1;
    var b := Pay(l, order[..n], net);
    PayDischarges(l, order[..n], net, a);
    assert order == order[..n] + [order[n]];
    if a in order[..n] {
      PayingSettlesReachable(l, order[..n], net, a);
    }
  }

  // ---------------------------------------------------------------------
  // Debts and posts, exactly
  // ---------------------------------------------------------------------

  /** The peer's envelope calls for an answer: it asks outright, or states a foreign hash not answered last. */
  predicate Answers(l: Ledger, peer: Account, wants: bool, hash: Hash, ours: Hash) {
    && Listed(l, peer)
    && (wants || (hash != "" && hash != ours && !(peer in l.answered && l.answered[peer] == hash)))
  }

  /** The step tries to reach the account with new facts or with all of them. */
  predicate Tries(l: Ledger, step: Step, a: Account) {
    match step
    case BroadcastStep(skip, net) => Listed(l, a) && a !in skip
    case SnapshotStep(to, net) => a == to && Listed(l, a)
    case ReconcileStep(peer, wants, hash, ours, net) => a == peer && Answers(l, peer, wants, hash, ours)
    case PayStep(order, net) => a in order && Listed(l, a)
    case _ => false
  }

  predicate Reaches(step: Step, a: Account) {
    (step.BroadcastStep? || step.SnapshotStep? || step.ReconcileStep? || step.PayStep?) && a in step.net.ok
  }

  /** A debt comes exactly with a broadcast or an answer that fails, or with a failed copy of a message. */
  predicate Incurs(l: Ledger, step: Step, a: Account) {
    || step == CopyFails(a)
    || ((step.BroadcastStep? || step.ReconcileStep?) && Tries(l, step, a) && !Reaches(step, a))
  }

  /** It goes exactly with a snapshot that arrives, with a paying pass that finds the account off the list or gone, or
      with the group. New events alone do not pay it. */
  predicate Clears(l: Ledger, step: Step, a: Account) {
    || step.Forget?
    || (!step.BroadcastStep? && Tries(l, step, a) && Reaches(step, a))
    || (step.PayStep? && a in step.order && (!Listed(l, a) || a in step.net.gone))
  }

  lemma {:induction false} BroadcastExactly(l: Ledger, to: seq<Account>, skip: set<Account>, net: Network, a: Account)
    ensures var b := BroadcastTo(l, to, skip, net);
            && (a in b.owed <==> a in l.owed || (a in to && a !in skip && a !in net.ok))
            && l.posts <= b.posts
            && (forall p :: PostedSince(b.posts, |l.posts|, p) <==>
                  p.kind == Events && p.to in to && p.to !in skip && p.to in net.ok)
  {
    if to != [] {
      var n := |to| - 1;
      BroadcastExactly(l, to[..n], skip, net, a);
      assert to == to[..n] + [to[n]];
      var b, b' := BroadcastTo(l, to[..n], skip, net), BroadcastTo(l, to, skip, net);
      if b'.posts != b.posts {
        forall p
          ensures PostedSince(b'.posts, |l.posts|, p) <==>
                    PostedSince(b.posts, |l.posts|, p) || p == b'.posts[|b.posts|]
        {
          PostedNext(b.posts, |l.posts|, b'.posts[|b.posts|], p);
        }
      }
    }
  }

  lemma PostedNext(posts: seq<Posted>, from: nat, q: Posted, p: Posted)
    requires from <= |posts|
    ensures PostedSince(posts + [q], from, p) <==> PostedSince(posts, from, p) || p == q
  {
    if PostedSince(posts, from, p) {
      var i :| from <= i < |posts| && posts[i] == p;
      assert (posts + [q])[i] == p;
    }
    assert (posts + [q])[|posts|] == q;
  }

  lemma {:induction false} PayExactly(l: Ledger, order: seq<Account>, net: Network, a: Account)
    ensures var b := Pay(l, order, net);
            && b.founded == l.founded && b.members == l.members && l.posts <= b.posts
            && (a in b.owed <==> a in l.owed && !(a in order && (!Listed(l, a) || a in net.ok || a in net.gone)))
            && (forall p :: PostedSince(b.posts, |l.posts|, p) <==>
                  p.kind == Snapshot && p.to in order && Listed(l, p.to) && p.to in net.ok)
  {
    if order != [] {
      var n := |order| - 1;
      PayExactly(l, order[..n], net, a);
      assert order == order[..n] + [order[n]];
      var b, b' := Pay(l, order[..n], net), Pay(l, order, net);
      if b'.posts != b.posts {
        forall p
          ensures PostedSince(b'.posts, |l.posts|, p) <==>
                    PostedSince(b.posts, |l.posts|, p) || p == b'.posts[|b.posts|]
        {
          PostedNext(b.posts, |l.posts|, b'.posts[|b.posts|], p);
        }
      }
    }
  }

  /** In a step a debt is open exactly if it was incurred now, or was open and is not cleared; and a post goes out
      exactly to the accounts tried and reached. */
  lemma DebtStepExactly(l: Ledger, step: Step, a: Account, p: Posted)
    ensures a in Apply(l, step).owed <==> Incurs(l, step, a) || (a in l.owed && !Clears(l, step, a))
    ensures PostedSince(Apply(l, step).posts, |l.posts|, p) <==>
              Tries(l, step, p.to) && Reaches(step, p.to) && p.kind == if step.BroadcastStep? then Events else Snapshot
  {
    match step
    case BroadcastStep(skip, net) => BroadcastExactly(l, l.members, skip, net, a);
    case PayStep(order, net) => PayExactly(l, order, net, a);
    case SnapshotStep(to, net) => PostedNext(l.posts, |l.posts|, Posted(to, Snapshot), p);
    case ReconcileStep(peer, wants, hash, ours, net) => PostedNext(l.posts, |l.posts|, Posted(peer, Snapshot), p);
    case _ =>
  }

  /** The last answered hash of a peer changes exactly when it states a foreign one, member or not, or with the
      group. */
  lemma AnsweredExactly(l: Ledger, step: Step, a: Account)
    ensures var answered := Apply(l, step).answered;
            var states := step.ReconcileStep? && step.peer == a && l.founded && !step.wants
                          && step.hash != "" && step.hash != step.ours;
            && (a in answered <==> states || (a in l.answered && !step.Forget?))
            && (a in answered ==> answered[a] == if states then step.hash else l.answered[a])
  {
    match step
    case BroadcastStep(skip, net) => BroadcastCovers(l, l.members, skip, net);
    case PayStep(order, net) => PayAnswers(l, order, net);
    case _ =>
  }

  lemma {:induction false} PayAnswers(l: Ledger, order: seq<Account>, net: Network)
    ensures Pay(l, order, net).answered == l.answered
  {
    if order != [] {
      PayAnswers(l, order[..|order| - 1], net);
    }
  }

  /** Only a change of membership, or forgetting the group, changes who is listed. */
  lemma ListedExactly(l: Ledger, step: Step, a: Account)
    ensures Listed(Apply(l, step), a) <==>
              if step.MembershipChanges? then step.founded && a in step.members else Listed(l, a) && !step.Forget?
  {
    match step
    case BroadcastStep(skip, net) => BroadcastCovers(l, l.members, skip, net);
    case PayStep(order, net) => PayExactly(l, order, net, a);
    case _ =>
  }

  /** The step incurs the debt, and no later one clears it without incurring it anew. */
  predicate OpenSince(l: Ledger, steps: seq<Step>, i: nat, a: Account)
    requires i < |steps|
  {
    && Incurs(Run(l, steps[..i]), steps[i], a)
    && forall j :: i < j < |steps| ==>
         !Clears(Run(l, steps[..j]), steps[j], a) || Incurs(Run(l, steps[..j]), steps[j], a)
  }

  /** Over any run from a client that owes nothing, a debt is open exactly if it was incurred and not cleared since. */
  lemma {:induction false} DebtOpenExactly(l: Ledger, steps: seq<Step>, a: Account)
    requires a !in l.owed
    ensures a in Run(l, steps).owed <==> exists i :: 0 <= i < |steps| && OpenSince(l, steps, i, a)
  {
    if steps != [] {
      var n := |steps| - 1;
      var before := Run(l, steps[..n]);
      DebtOpenExactly(l, steps[..n], a);
      DebtStepExactly(before, steps[n], a, Posted(a, Events));
      forall i | 0 <= i < n
        ensures OpenSince(l, steps, i, a) <==>
                  OpenSince(l, steps[..n], i, a) && (!Clears(before, steps[n], a) || Incurs(before, steps[n], a))
      {
        OpenSinceNext(l, steps, i, a);
      }
      assert OpenSince(l, steps, n, a) <==> Incurs(before, steps[n], a);
      if a in before.owed && a in Run(l, steps).owed {
        var i :| 0 <= i < n && OpenSince(l, steps[..n], i, a);
        assert OpenSince(l, steps, i, a) || OpenSince(l, steps, n, a);
      }
    }
  }

  lemma OpenSinceNext(l: Ledger, steps: seq<Step>, i: nat, a: Account)
    requires i < |steps| - 1
    ensures var n := |steps| - 1;
            var before := Run(l, steps[..n]);
            OpenSince(l, steps, i, a) <==>
              OpenSince(l, steps[..n], i, a) && (!Clears(before, steps[n], a) || Incurs(before, steps[n], a))
  {
    var n := |steps| - 1;
    assert steps[..n][..i] == steps[..i];
    assert forall j :: 0 <= j < n ==> steps[..n][..j] == steps[..j];
  }
}

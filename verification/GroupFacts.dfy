/**
 Folding control envelopes into a group's facts (pkg/client/groups.go, over
 pkg/group/state.go): admission with genesis first, the bounded buffer of
 premature events, and what any delivery order of the same envelopes leaves
 behind. All envelopes name the one group they are about.
 */
module GroupFacts {

  /** valid: the event belongs to this group and its signature chain verifies under the group's root key. */
  datatype Event = Event(id: nat, genesis: bool, valid: bool)

  const MAX_HELD := 64

  /** Facts admitted, and events waiting for a genesis. */
  datatype Member = Member(facts: set<Event>, held: seq<Event>)

  const EMPTY := Member({}, [])

  predicate HasGenesis(events: seq<Event>) {
    exists i :: 0 <= i < |events| && events[i].genesis && events[i].valid
  }

  predicate Founded(facts: set<Event>) {
    exists e :: e in facts && e.genesis
  }

  function ValidOf(events: seq<Event>): set<Event> {
    set e | e in events && e.valid
  }

  function NonGenesis(events: seq<Event>): seq<Event> {
    if events == [] then []
    else
      var n := |events| - 1;
      NonGenesis(events[..n]) + (if events[n].genesis then [] else [events[n]])
  }

  function Take(events: seq<Event>): seq<Event> {
    if |events| <= MAX_HELD then events else events[..MAX_HELD]
  }

  /** One control envelope: retried held events and new ones, admitted together or held. */
  function Fold(m: Member, events: seq<Event>): Member {
    var batch := m.held + events;
    if Founded(m.facts) || HasGenesis(batch) then Member(m.facts + ValidOf(batch), [])
    else Member(m.facts, Take(NonGenesis(batch)))
  }

  // ---------------------------------------------------------------------
  // As the source does it
  // ---------------------------------------------------------------------

  datatype Reason = NoGenesis | Unverified

  datatype Rejection = Rejection(index: nat, reason: Reason)

  function PrematureAt(batch: seq<Event>, rejected: seq<Rejection>): (r: seq<Event>)
    requires forall i :: 0 <= i < |rejected| ==> rejected[i].index < |batch|
  {
    if rejected == [] then []
    else
      var n := |rejected| - 1;
      PrematureAt(batch, rejected[..n]) + (if rejected[n].reason == NoGenesis then [batch[rejected[n].index]] else [])
  }

  function GenesisOf(events: seq<Event>): set<Event> {
    set e | e in events && e.genesis && e.valid
  }

  function RestOf(events: seq<Event>): set<Event> {
    set e | e in events && !e.genesis && e.valid
  }

  predicate InRange(batch: seq<Event>, rejected: seq<Rejection>) {
    forall i :: 0 <= i < |rejected| ==> rejected[i].index < |batch|
  }

  lemma GenesisOfEmpty(events: seq<Event>)
    ensures GenesisOf(events) == {} <==> !HasGenesis(events)
  {
    if HasGenesis(events) {
      var i :| 0 <= i < |events| && events[i].genesis && events[i].valid;
      assert events[i] in GenesisOf(events);
    }
  }

  lemma PushEvent(batch: seq<Event>, i: nat)
    requires i < |batch|
    ensures GenesisOf(batch[..i + 1]) ==
            GenesisOf(batch[..i]) + (if batch[i].genesis && batch[i].valid then {batch[i]} else {})
    ensures RestOf(batch[..i + 1]) ==
            RestOf(batch[..i]) + (if !batch[i].genesis && batch[i].valid then {batch[i]} else {})
    ensures NonGenesis(batch[..i + 1]) == NonGenesis(batch[..i]) + (if batch[i].genesis then [] else [batch[i]])
  {
    assert batch[..i + 1] == batch[..i] + [batch[i]];
  }

  lemma PushRejection(batch: seq<Event>, rejected: seq<Rejection>, r: Rejection)
    requires InRange(batch, rejected) && r.index < |batch|
    ensures InRange(batch, rejected + [r])
    ensures PrematureAt(batch, rejected + [r])
         == PrematureAt(batch, rejected) + (if r.reason == NoGenesis then [batch[r.index]] else [])
  {
    assert (rejected + [r])[..|rejected|] == rejected;
  }

  /** First pass of State.Apply: the genesis events. */
  method AdmitGenesis(batch: seq<Event>) returns (admitted: set<Event>, rejected: seq<Rejection>)
    ensures admitted == GenesisOf(batch)
    ensures InRange(batch, rejected) && PrematureAt(batch, rejected) == []
  {
    admitted, rejected := {}, [];
    for i := 0 to |batch|
      invariant admitted == GenesisOf(batch[..i])
      invariant InRange(batch, rejected) && PrematureAt(batch, rejected) == []
    {
      PushEvent(batch, i);
      if batch[i].genesis {
        if batch[i].valid {
          admitted := admitted + {batch[i]};
        } else {
          PushRejection(batch, rejected, Rejection(i, Unverified));
          rejected := rejected + [Rejection(i, Unverified)];
        }
      }
    }
    assert batch[..|batch|] == batch;
  }

  /** Second pass: everything else, if a genesis is known. */
  method AdmitRest(batch: seq<Event>, known: bool, rejected: seq<Rejection>)
    returns (admitted: set<Event>, rejected': seq<Rejection>)
    requires InRange(batch, rejected) && PrematureAt(batch, rejected) == []
    ensures admitted == if known then RestOf(batch) else {}
    ensures InRange(batch, rejected') && PrematureAt(batch, rejected') == if known then [] else NonGenesis(batch)
  {
    admitted, rejected' := {}, rejected;
    for i := 0 to |batch|
      invariant admitted == if known then RestOf(batch[..i]) else {}
      invariant InRange(batch, rejected')
      invariant PrematureAt(batch, rejected') == if known then [] else NonGenesis(batch[..i])
    {
      PushEvent(batch, i);
      if !batch[i].genesis {
        if !known || !batch[i].valid {
          var r := Rejection(i, if known then Unverified else NoGenesis);
          PushRejection(batch, rejected', r);
          rejected' := rejected' + [r];
        } else {
          admitted := admitted + {batch[i]};
        }
      }
    }
    assert batch[..|batch|] == batch;
  }

  /** pkg/group State.Apply: genesis events first, then the rest. */
  method ApplyBatch(facts: set<Event>, batch: seq<Event>) returns (facts': set<Event>, rejected: seq<Rejection>)
    requires facts != {} ==> Founded(facts)
    ensures InRange(batch, rejected)
    ensures Founded(facts) || HasGenesis(batch) ==>
            facts' == facts + ValidOf(batch) && PrematureAt(batch, rejected) == []
    ensures !Founded(facts) && !HasGenesis(batch) ==> facts' == {} && PrematureAt(batch, rejected) == NonGenesis(batch)
  {
    var founders, unverified := AdmitGenesis(batch);
    GenesisOfEmpty(batch);
    var known := facts != {} || founders != {};
    var rest;
    rest, rejected := AdmitRest(batch, known, unverified);
    facts' := facts + founders + rest;
    assert ValidOf(batch) == GenesisOf(batch) + RestOf(batch);
  }

  /** holdPrematureLocked: the first 64 events rejected only for the missing genesis. */
  method HoldPremature(batch: seq<Event>, rejected: seq<Rejection>) returns (keep: seq<Event>)
    requires InRange(batch, rejected)
    ensures keep == Take(PrematureAt(batch, rejected))
  {
    keep := [];
    for i := 0 to |rejected|
      invariant keep == PrematureAt(batch, rejected[..i]) && |keep| <= MAX_HELD
    {
      assert rejected[..i + 1][..i] == rejected[..i];
      if rejected[i].reason == NoGenesis {
        if |keep| >= MAX_HELD {
          PrematurePrefix(batch, rejected, i);
          return;
        }
        keep := keep + [batch[rejected[i].index]];
      }
    }
    assert rejected[..|rejected|] == rejected;
  }

  lemma {:induction false} PrematurePrefix(batch: seq<Event>, rejected: seq<Rejection>, k: nat)
    requires forall i :: 0 <= i < |rejected| ==> rejected[i].index < |batch|
    requires k <= |rejected|
    ensures PrematureAt(batch, rejected[..k]) <= PrematureAt(batch, rejected)
  {
    if k < |rejected| {
      var n := |rejected| - 1;
      PrematurePrefix(batch, rejected[..n], k);
      assert rejected[..n][..k] == rejected[..k];
    } else {
      assert rejected[..k] == rejected;
    }
  }

  class GroupStore {
    var facts: set<Event>
    var held: seq<Event>

    function Value(): Member
      reads this
    {
      Member(facts, held)
    }

    ghost predicate Valid()
      reads this
    {
      facts != {} ==> Founded(facts)
    }

    constructor ()
      ensures Valid() && Value() == EMPTY
    {
      facts, held := {}, [];
    }

    method ApplyGroupControl(events: seq<Event>)
      requires Valid()
      modifies this
      ensures Valid() && Value() == Fold(old(Value()), events)
    {
      var batch := held + events;
      var facts', rejected := ApplyBatch(facts, batch);
      held := HoldPremature(batch, rejected);
      facts := facts';
      if HasGenesis(batch) {
        var i :| 0 <= i < |batch| && batch[i].genesis && batch[i].valid;
        assert batch[i] in facts;
      }
    }
  }

  // ---------------------------------------------------------------------
  // Any sequence of envelopes
  // ---------------------------------------------------------------------

  function Receive(envelopes: seq<seq<Event>>): Member {
    if envelopes == [] then EMPTY
    else Fold(Receive(envelopes[..|envelopes| - 1]), envelopes[|envelopes| - 1])
  }

  function Flatten(envelopes: seq<seq<Event>>): seq<Event> {
    if envelopes == [] then []
    else Flatten(envelopes[..|envelopes| - 1]) + envelopes[|envelopes| - 1]
  }

  predicate Introduced(envelopes: seq<seq<Event>>) {
    exists i :: 0 <= i < |envelopes| && HasGenesis(envelopes[i])
  }

  /** The events that arrived in envelopes before the first one with a genesis, repeats included. */
  function Premature(envelopes: seq<seq<Event>>): seq<Event> {
    if envelopes == [] then []
    else
      var n := |envelopes| - 1;
      Premature(envelopes[..n])
      + (if Introduced(envelopes) then [] else NonGenesis(envelopes[n]))
  }

  /** Everything valid from the first envelope with a genesis on. */
  function Timely(envelopes: seq<seq<Event>>): set<Event> {
    if envelopes == [] then {}
    else
      var n := |envelopes| - 1;
      Timely(envelopes[..n]) + (if Introduced(envelopes) then ValidOf(envelopes[n]) else {})
  }

  lemma IntroducedSplit(envelopes: seq<seq<Event>>)
    requires envelopes != []
    ensures var n := |envelopes| - 1;
            Introduced(envelopes) <==> Introduced(envelopes[..n]) || HasGenesis(envelopes[n])
  {
    var n := |envelopes| - 1;
    if Introduced(envelopes[..n]) {
      var i :| 0 <= i < n && HasGenesis(envelopes[..n][i]);
      assert HasGenesis(envelopes[i]);
    }
  }

  lemma {:induction false} NonGenesisConcat(s: seq<Event>, t: seq<Event>)
    ensures NonGenesis(s + t) == NonGenesis(s) + NonGenesis(t)
  {
    if t == [] {
      assert s + t == s;
    } else {
      var n := |t| - 1;
      NonGenesisConcat(s, t[..n]);
      assert (s + t)[..|s + t| - 1] == s + t[..n];
    }
  }

  lemma {:induction false} NonGenesisMembers(s: seq<Event>)
    ensures forall e :: e in NonGenesis(s) <==> e in s && !e.genesis
  {
    if s != [] {
      var n := |s| - 1;
      NonGenesisMembers(s[..n]);
      assert s == s[..n] + [s[n]];
    }
  }

  lemma {:induction false} NonGenesisIdempotent(s: seq<Event>)
    requires forall e :: e in s ==> !e.genesis
    ensures NonGenesis(s) == s
  {
    if s != [] {
      var n := |s| - 1;
      NonGenesisIdempotent(s[..n]);
    }
  }

  lemma {:induction false} PrematureMembers(envelopes: seq<seq<Event>>)
    ensures forall e :: e in Premature(envelopes) ==> !e.genesis
  {
    if envelopes != [] {
      PrematureMembers(envelopes[..|envelopes| - 1]);
      NonGenesisMembers(envelopes[|envelopes| - 1]);
    }
  }

  ghost predicate Shape(envelopes: seq<seq<Event>>, m: Member) {
    if Introduced(envelopes)
    then m == Member(ValidOf(Take(Premature(envelopes))) + Timely(envelopes), []) && Founded(m.facts)
    else m == Member({}, Take(Premature(envelopes)))
  }

  lemma ShapeStep(envelopes: seq<seq<Event>>, m: Member)
    requires envelopes != [] && Shape(envelopes[..|envelopes| - 1], m)
    ensures Shape(envelopes, Fold(m, envelopes[|envelopes| - 1]))
  {
    var n := |envelopes| - 1;
    var front, last := envelopes[..n], envelopes[n];
    IntroducedSplit(envelopes);
    assert Premature(front) + [] == Premature(front);
    if Introduced(front) {
      assert m.held + last == last;
      FoundedGrows(m.facts, ValidOf(last));
    } else {
      PrematureMembers(front);
      TimelyEmpty(front);
      FoldUnfounded(Premature(front), last);
    }
  }

  lemma FoundedGrows(facts: set<Event>, more: set<Event>)
    requires Founded(facts)
    ensures Founded(facts + more)
  {
    var e :| e in facts && e.genesis;
    assert e in facts + more;
  }

  lemma FoldUnfounded(premature: seq<Event>, last: seq<Event>)
    requires forall e :: e in premature ==> !e.genesis
    ensures HasGenesis(last) ==>
              && Fold(Member({}, Take(premature)), last) == Member(ValidOf(Take(premature)) + ValidOf(last), [])
              && Founded(ValidOf(Take(premature)) + ValidOf(last))
    ensures !HasGenesis(last) ==>
              Fold(Member({}, Take(premature)), last) == Member({}, Take(premature + NonGenesis(last)))
  {
    var held := Take(premature);
    HeldNonGenesis(held, last);
    if HasGenesis(last) {
      FirstGenesisAdmits(held, last);
    } else {
      TakeTake(premature, NonGenesis(last));
    }
  }

  /** What a member holds after any envelopes at all: the first 64 premature events, and everything timely. */
  lemma {:induction false} ReceiveShape(envelopes: seq<seq<Event>>)
    ensures Shape(envelopes, Receive(envelopes))
  {
    if envelopes != [] {
      ReceiveShape(envelopes[..|envelopes| - 1]);
      ShapeStep(envelopes, Receive(envelopes[..|envelopes| - 1]));
    }
  }

  lemma {:induction false} TimelyEmpty(envelopes: seq<seq<Event>>)
    requires !Introduced(envelopes)
    ensures Timely(envelopes) == {}
  {
    if envelopes != [] {
      IntroducedSplit(envelopes);
      TimelyEmpty(envelopes[..|envelopes| - 1]);
    }
  }

  lemma HeldNonGenesis(held: seq<Event>, last: seq<Event>)
    requires forall e :: e in held ==> !e.genesis
    ensures HasGenesis(held + last) <==> HasGenesis(last)
    ensures NonGenesis(held + last) == held + NonGenesis(last)
    ensures ValidOf(held + last) == ValidOf(held) + ValidOf(last)
  {
    NonGenesisConcat(held, last);
    NonGenesisIdempotent(held);
    GenesisConcat(held, last);
    NoGenesisHeld(held);
    ValidConcat(held, last);
  }

  lemma NoGenesisHeld(held: seq<Event>)
    requires forall e :: e in held ==> !e.genesis
    ensures !HasGenesis(held)
  {
    forall k | 0 <= k < |held| ensures !held[k].genesis {
      assert held[k] in held;
    }
  }

  lemma ValidConcat(s: seq<Event>, t: seq<Event>)
    ensures ValidOf(s + t) == ValidOf(s) + ValidOf(t)
  {
  }

  lemma FirstGenesisAdmits(held: seq<Event>, last: seq<Event>)
    requires HasGenesis(last)
    ensures Founded(ValidOf(held) + ValidOf(last))
  {
    var i :| 0 <= i < |last| && last[i].genesis && last[i].valid;
    assert last[i] in ValidOf(last);
  }

  lemma TakeTake(s: seq<Event>, t: seq<Event>)
    ensures Take(Take(s) + t) == Take(s + t)
  {
  }

  // ---------------------------------------------------------------------
  // Order independence and its exact limit
  // ---------------------------------------------------------------------

  function AllValid(envelopes: seq<seq<Event>>): set<Event> {
    ValidOf(Flatten(envelopes))
  }

  lemma {:induction false} EverythingArrived(envelopes: seq<seq<Event>>)
    ensures Introduced(envelopes) ==> AllValid(envelopes) == ValidOf(Premature(envelopes)) + Timely(envelopes)
    ensures !Introduced(envelopes) ==> AllValid(envelopes) == ValidOf(Premature(envelopes))
    ensures HasGenesis(Flatten(envelopes)) <==> Introduced(envelopes)
  {
    if envelopes != [] {
      var n := |envelopes| - 1;
      var last := envelopes[n];
      EverythingArrived(envelopes[..n]);
      IntroducedSplit(envelopes);
      GenesisConcat(Flatten(envelopes[..n]), last);
      assert ValidOf(Flatten(envelopes)) == ValidOf(Flatten(envelopes[..n])) + ValidOf(last);
      NonGenesisMembers(last);
      if !Introduced(envelopes) {
        forall e | e in last && e.valid ensures e in NonGenesis(last) {
          var i :| 0 <= i < |last| && last[i] == e;
        }
      } else if !Introduced(envelopes[..n]) {
        TimelyEmpty(envelopes[..n]);
      }
    }
  }

  lemma GenesisConcat(s: seq<Event>, t: seq<Event>)
    ensures HasGenesis(s + t) <==> HasGenesis(s) || HasGenesis(t)
  {
    var u := s + t;
    if HasGenesis(s) {
      var i :| 0 <= i < |s| && s[i].genesis && s[i].valid;
      assert u[i] == s[i];
    }
    if HasGenesis(t) {
      var i :| 0 <= i < |t| && t[i].genesis && t[i].valid;
      assert u[|s| + i] == t[i];
    }
  }

  /** Delivering envelope by envelope equals applying everything at once exactly when each dropped event that is valid
      arrived again in time. */
  lemma DeliveryEqualsBatchExactly(envelopes: seq<seq<Event>>)
    requires Introduced(envelopes)
    ensures Receive(envelopes).facts == Fold(EMPTY, Flatten(envelopes)).facts <==>
              (forall i :: MAX_HELD <= i < |Premature(envelopes)| && Premature(envelopes)[i].valid ==>
                 Premature(envelopes)[i] in Premature(envelopes)[..MAX_HELD]
                   || Premature(envelopes)[i] in Timely(envelopes))
  {
    ReceiveShape(envelopes);
    EverythingArrived(envelopes);
    var p := Premature(envelopes);
    assert [] + Flatten(envelopes) == Flatten(envelopes);
    assert Fold(EMPTY, Flatten(envelopes)).facts == AllValid(envelopes);
    if |p| > MAX_HELD {
      assert p == p[..MAX_HELD] + p[MAX_HELD..];
      forall i | MAX_HELD <= i < |p| && p[i].valid ensures p[i] in ValidOf(p) {
      }
      forall i | 0 <= i < MAX_HELD && p[i].valid ensures p[i] in ValidOf(p[..MAX_HELD]) {
        assert p[..MAX_HELD][i] == p[i];
      }
      forall e | e in ValidOf(p) && e !in ValidOf(p[..MAX_HELD])
        ensures exists i :: MAX_HELD <= i < |p| && p[i] == e
      {
        var i :| 0 <= i < |p| && p[i] == e;
      }
    }
  }

  /** With at most 64 premature events, counted with repeats, nothing is lost. */
  lemma NothingLost(envelopes: seq<seq<Event>>)
    requires |Premature(envelopes)| <= MAX_HELD
    ensures Receive(envelopes).facts == Fold(EMPTY, Flatten(envelopes)).facts
    ensures Introduced(envelopes) ==> Receive(envelopes).facts == AllValid(envelopes)
  {
    ReceiveShape(envelopes);
    EverythingArrived(envelopes);
    assert [] + Flatten(envelopes) == Flatten(envelopes);
  }

  /** So any two delivery orders of the same envelopes agree. */
  lemma OrderDoesNotMatter(envelopes: seq<seq<Event>>, reordered: seq<seq<Event>>)
    requires multiset(envelopes) == multiset(reordered)
    requires |Premature(envelopes)| <= MAX_HELD && |Premature(reordered)| <= MAX_HELD
    ensures Receive(envelopes).facts == Receive(reordered).facts
  {
    NothingLost(envelopes);
    NothingLost(reordered);
    ReceiveShape(envelopes);
    ReceiveShape(reordered);
    SameEvents(envelopes, reordered);
    SameEvents(reordered, envelopes);
  }

  lemma SameEvents(envelopes: seq<seq<Event>>, reordered: seq<seq<Event>>)
    requires multiset(envelopes) == multiset(reordered)
    ensures AllValid(envelopes) <= AllValid(reordered)
    ensures Introduced(envelopes) ==> Introduced(reordered)
  {
    forall e | e in Flatten(envelopes) ensures e in Flatten(reordered) {
      FlattenMember(envelopes, e);
      var i :| 0 <= i < |envelopes| && e in envelopes[i];
      assert envelopes[i] in multiset(reordered);
      var j :| 0 <= j < |reordered| && reordered[j] == envelopes[i];
      FlattenMember(reordered, e);
    }
    if Introduced(envelopes) {
      var i :| 0 <= i < |envelopes| && HasGenesis(envelopes[i]);
      assert envelopes[i] in multiset(reordered);
      var j :| 0 <= j < |reordered| && reordered[j] == envelopes[i];
      assert HasGenesis(reordered[j]);
    }
  }

  lemma {:induction false} FlattenMember(envelopes: seq<seq<Event>>, e: Event)
    ensures e in Flatten(envelopes) <==> exists i :: 0 <= i < |envelopes| && e in envelopes[i]
  {
    if envelopes != [] {
      var n := |envelopes| - 1;
      FlattenMember(envelopes[..n], e);
      if e in Flatten(envelopes[..n]) {
        var i :| 0 <= i < n && e in envelopes[..n][i];
        assert e in envelopes[i];
      }
      forall i | 0 <= i < n && e in envelopes[i] ensures e in Flatten(envelopes[..n]) {
        assert e in envelopes[..n][i];
      }
    }
  }

  /** The condition is needed: of 65 valid events that arrive before the genesis, the last is lost, though in one batch
      with the genesis it is admitted. */
  lemma SixtyFifthIsLost(early: seq<Event>, genesis: Event)
    requires |early| == MAX_HELD + 1 && genesis.genesis && genesis.valid
    requires forall i :: 0 <= i < |early| ==> !early[i].genesis && early[i].valid
    requires early[MAX_HELD] !in early[..MAX_HELD]
    ensures early[MAX_HELD] !in Receive([early, [genesis]]).facts
    ensures early[MAX_HELD] in Fold(EMPTY, Flatten([early, [genesis]])).facts
  {
    var last := early[MAX_HELD];
    TwoEnvelopes(early, genesis);
    NoGenesisHeld(early);
    NonGenesisIdempotent(early);
    assert [] + early == early;
    assert Fold(EMPTY, early) == Member({}, early[..MAX_HELD]);
    var batch := early + [genesis];
    assert batch[MAX_HELD] == last && batch[|early|] == genesis && [] + batch == batch;
  }

  lemma OneEnvelope(early: seq<Event>)
    ensures Receive([early]) == Fold(EMPTY, early) && Flatten([early]) == early
  {
    assert [early][..0] == [] && [early][0] == early;
    assert [] + early == early;
  }

  lemma TwoEnvelopes(early: seq<Event>, genesis: Event)
    ensures Receive([early, [genesis]]) == Fold(Fold(EMPTY, early), [genesis])
    ensures Flatten([early, [genesis]]) == early + [genesis]
  {
    var envelopes := [early, [genesis]];
    assert envelopes[..1] == [early] && envelopes[1] == [genesis];
    OneEnvelope(early);
  }
}

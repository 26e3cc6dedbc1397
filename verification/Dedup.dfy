/**
 The client's memory of handled messages (pkg/client/dedup.go): a window of the
 last 500 ids, an append-only log rewritten at twice that, and the counter that
 gives up on an envelope after three failed decrypts.
 */
module Dedup {
  import opened Collections

  /** Message ids, numbered; BLANK is the empty string. */
  type Id = nat

  const BLANK: Id := 0
  const BOUND := 500
  const COMPACT_AT := 2 * BOUND
  const MAX_ATTEMPTS := 3

  // ---------------------------------------------------------------------
  // The window and the log as values
  // ---------------------------------------------------------------------

  function Last(s: seq<Id>, n: nat): (r: seq<Id>)
    ensures |r| <= n
  {
    if |s| <= n then s else s[|s| - n..]
  }

  /** The ids of a log, each at its first appearance; a line without an id is skipped. */
  function Firsts(log: seq<Id>): seq<Id> {
    if log == [] then []
    else
      var before, x := Firsts(log[..|log| - 1]), log[|log| - 1];
      if x == BLANK || x in before then before else before + [x]
  }

  function Usable(log: seq<Id>): (n: nat)
    ensures n <= |log|
  {
    if log == [] then 0
    else Usable(log[..|log| - 1]) + if log[|log| - 1] == BLANK then 0 else 1
  }

  /** order: the ids in memory, oldest first; log: the file's lines; written: lines written so far, rewrites
      included. */
  datatype State = State(order: seq<Id>, lines: nat, log: seq<Id>, written: nat)

  const EMPTY := State([], 0, [], 0)

  function Compact(s: State): State {
    if s.lines > COMPACT_AT then State(s.order, |s.order|, s.order, s.written + |s.order|) else s
  }

  function Mark(s: State, id: Id): State {
    if id in s.order then s
    else Compact(State(Last(s.order + [id], BOUND), s.lines + 1, s.log + [id], s.written + 1))
  }

  function Restart(s: State): State {
    Compact(State(Last(Firsts(s.log), BOUND), Usable(s.log), s.log, s.written))
  }

  // ---------------------------------------------------------------------
  // Decrypt failures as values
  // ---------------------------------------------------------------------

  datatype Failures = Failures(counts: map<Id, nat>, order: seq<Id>)

  function Keep(order: seq<Id>, counts: map<Id, nat>): seq<Id> {
    if order == [] then []
    else Keep(order[..|order| - 1], counts) + if order[|order| - 1] in counts then [order[|order| - 1]] else []
  }

  function Forget(f: Failures, id: Id): Failures {
    Failures(f.counts - {id}, Keep(f.order, f.counts - {id}))
  }

  function Attempts(f: Failures, id: Id): nat {
    if id in f.counts then f.counts[id] else 0
  }

  function Fail(f: Failures, id: Id): Failures {
    if Attempts(f, id) + 1 >= MAX_ATTEMPTS then Forget(f, id)
    else
      var order := if id in f.counts then f.order else f.order + [id];
      Trim(f.counts[id := Attempts(f, id) + 1], order)
  }

  /** The oldest entries past the bound are dropped. */
  function Trim(counts: map<Id, nat>, order: seq<Id>): Failures {
    var kept := counts - Elems(order[..|order| - |Last(order, BOUND)|]);
    Failures(kept, Keep(Last(order, BOUND), kept))
  }

  // ---------------------------------------------------------------------
  // As the source does it
  // ---------------------------------------------------------------------

  class Client {
    var processedIDs: set<Id>
    var processedOrder: seq<Id>
    var processedLines: nat
    var log: seq<Id>
    ghost var written: nat
    var failures: map<Id, nat>
    var failureOrder: seq<Id>

    ghost function Value(): State
      reads this
    {
      State(processedOrder, processedLines, log, written)
    }

    ghost function FailureValue(): Failures
      reads this
    {
      Failures(failures, failureOrder)
    }

    ghost predicate Valid()
      reads this
    {
      Distinct(processedOrder) && processedIDs == Elems(processedOrder)
    }

    constructor ()
      ensures Valid() && Value() == EMPTY && FailureValue() == Failures(map[], [])
    {
      processedIDs, processedOrder, processedLines, log, written := {}, [], 0, [], 0;
      failures, failureOrder := map[], [];
    }

    method EvictProcessed()
      requires Valid()
      modifies this`processedIDs, this`processedOrder
      ensures Valid() && processedOrder == Last(old(processedOrder), BOUND)
    {
      if |processedOrder| <= BOUND {
        return;
      }
      var drop := |processedOrder| - BOUND;
      for i := 0 to drop
        invariant processedOrder == old(processedOrder)
        invariant processedIDs == Elems(processedOrder[i..])
      {
        DropFirst(processedOrder[i..]);
        assert processedOrder[i..][1..] == processedOrder[i + 1..];
        processedIDs := processedIDs - {processedOrder[i]};
      }
      processedOrder := processedOrder[drop..];
    }

    method CompactProcessed()
      requires Valid()
      modifies this`log, this`processedLines, this`written
      ensures log == processedOrder && processedLines == |processedOrder|
      ensures written == old(written) + |processedOrder|
    {
      var lines := [];
      for i := 0 to |processedOrder|
        invariant lines == processedOrder[..i]
        invariant written == old(written) + i
      {
        lines := lines + [processedOrder[i]];
        written := written + 1;
      }
      log := lines;
      processedLines := |processedOrder|;
    }

    method LoadProcessed()
      modifies this`processedIDs, this`processedOrder, this`processedLines, this`log, this`written
      ensures Valid() && Value() == Restart(old(Value()))
    {
      processedIDs, processedOrder, processedLines := {}, [], 0;
      for i := 0 to |log|
        invariant log == old(log) && written == old(written)
        invariant Valid() && processedOrder == Firsts(log[..i]) && processedLines == Usable(log[..i])
      {
        assert log[..i + 1][..i] == log[..i];
        var id := log[i];
        if id != BLANK {
          processedLines := processedLines + 1;
          if id !in processedIDs {
            processedIDs := processedIDs + {id};
            processedOrder := processedOrder + [id];
          }
        }
      }
      assert log[..|log|] == log;
      EvictProcessed();
      if processedLines > COMPACT_AT {
        CompactProcessed();
      }
    }

    method WasMessageProcessed(id: Id) returns (known: bool)
      requires Valid()
      ensures known <==> id in processedOrder
    {
      return id in processedIDs;
    }

    method SaveFailures()
      modifies this`failureOrder
      ensures failureOrder == Keep(old(failureOrder), failures)
    {
      var order := [];
      for i := 0 to |failureOrder|
        invariant failureOrder == old(failureOrder) && order == Keep(failureOrder[..i], failures)
      {
        assert failureOrder[..i + 1][..i] == failureOrder[..i];
        if failureOrder[i] in failures {
          order := order + [failureOrder[i]];
        }
      }
      assert failureOrder[..|failureOrder|] == failureOrder;
      failureOrder := order;
    }

    method MarkMessageProcessed(id: Id)
      requires Valid()
      modifies this
      ensures Valid() && Value() == Mark(old(Value()), id)
      ensures FailureValue() == if id in old(failures) then Forget(old(FailureValue()), id) else old(FailureValue())
    {
      if id !in processedIDs {
        log := log + [id];
        written := written + 1;
        processedIDs := processedIDs + {id};
        processedOrder := processedOrder + [id];
        processedLines := processedLines + 1;
        EvictProcessed();
        if processedLines > COMPACT_AT {
          CompactProcessed();
        }
      }
      if id in failures {
        failures := failures - {id};
        SaveFailures();
      }
    }

    method RecordDecryptFailure(id: Id) returns (giveUp: bool)
      modifies this`failures, this`failureOrder
      ensures giveUp <==> Attempts(old(FailureValue()), id) + 1 >= MAX_ATTEMPTS
      ensures FailureValue() == Fail(old(FailureValue()), id)
    {
      var attempts := (if id in failures then failures[id] else 0) + 1;
      if attempts >= MAX_ATTEMPTS {
        failures := failures - {id};
        SaveFailures();
        return true;
      }
      if id !in failures {
        failureOrder := failureOrder + [id];
      }
      failures := failures[id := attempts];
      TrimFailures();
      return false;
    }

    method TrimFailures()
      modifies this`failures, this`failureOrder
      ensures FailureValue() == Trim(old(failures), old(failureOrder))
    {
      ghost var order, counts := failureOrder, failures;
      ghost var dropped := 0;
      while |failureOrder| > BOUND
        invariant 0 <= dropped <= |order| - |Last(order, BOUND)| && failureOrder == order[dropped..]
        invariant failures == counts - Elems(order[..dropped])
      {
        TakeNext(order, dropped);
        failures := failures - {failureOrder[0]};
        failureOrder := failureOrder[1..];
        dropped := dropped + 1;
      }
      assert failureOrder == Last(order, BOUND) && dropped == |order| - |failureOrder|;
      SaveFailures();
    }
  }

  lemma DropFirst(s: seq<Id>)
    requires s != [] && Distinct(s)
    ensures Elems(s[1..]) == Elems(s) - {s[0]}
  {
    assert s == [s[0]] + s[1..];
    assert forall i :: 0 <= i < |s[1..]| ==> s[1..][i] == s[i + 1];
  }

  lemma TakeNext(s: seq<Id>, n: nat)
    requires n < |s|
    ensures Elems(s[..n + 1]) == Elems(s[..n]) + {s[n]}
  {
    assert s[..n + 1] == s[..n] + [s[n]];
  }

  // ---------------------------------------------------------------------
  // Runs
  // ---------------------------------------------------------------------

  datatype Step = Handle(id: Id) | Reopen

  function Apply(s: State, step: Step): State {
    match step
    case Handle(id) => Mark(s, id)
    case Reopen => Restart(s)
  }

  function Run(steps: seq<Step>): State {
    if steps == [] then EMPTY else Apply(Run(steps[..|steps| - 1]), steps[|steps| - 1])
  }

  /** The ids marked while not remembered, with memory taken to be the last 500 of them. */
  function Accepted(steps: seq<Step>): seq<Id> {
    if steps == [] then []
    else
      var before := Accepted(steps[..|steps| - 1]);
      match steps[|steps| - 1]
      case Handle(id) => if id in Last(before, BOUND) then before else before + [id]
      case Reopen => before
  }

  function Marks(steps: seq<Step>): nat {
    if steps == [] then 0 else Marks(steps[..|steps| - 1]) + if steps[|steps| - 1].Handle? then 1 else 0
  }

  /** The log lines older than the window. */
  function Evicted(s: State): seq<Id>
    requires |s.order| <= |s.log|
  {
    s.log[..|s.log| - |s.order|]
  }

  /** No remembered id has an older copy in the log, and none is empty. */
  predicate Rebuildable(s: State)
    requires |s.order| <= |s.log|
  {
    BLANK !in s.order && forall x :: x in s.order ==> x !in Evicted(s)
  }

  /** Equal lines are more than a window apart. */
  predicate Spaced(log: seq<Id>) {
    forall p, q :: 0 <= p < q < |log| && log[p] == log[q] ==> q - p > BOUND
  }

  predicate Consistent(s: State) {
    && s.lines == |s.log| <= COMPACT_AT
    && s.order == Last(s.log, BOUND)
    && Spaced(s.log)
  }

  lemma SpacedSuffix(log: seq<Id>)
    requires Spaced(log)
    ensures Spaced(Last(log, BOUND)) && Distinct(Last(log, BOUND))
  {
    var r := Last(log, BOUND);
    var k := |log| - |r|;
    assert forall i :: 0 <= i < |r| ==> r[i] == log[k + i];
  }

  lemma SpacedAppend(log: seq<Id>, id: Id)
    requires Spaced(log) && id !in Last(log, BOUND)
    ensures Spaced(log + [id])
  {
    var r := Last(log, BOUND);
    var k := |log| - |r|;
    assert forall i :: k <= i < |log| ==> log[i] == r[i - k];
    assert forall i :: k <= i < |log| ==> log[i] in r;
  }

  lemma LastAppend(log: seq<Id>, id: Id)
    ensures Last(Last(log, BOUND) + [id], BOUND) == Last(log + [id], BOUND)
  {
  }

  lemma MarkConsistent(s: State, id: Id)
    requires Consistent(s)
    ensures Consistent(Mark(s, id))
  {
    if id !in s.order {
      SpacedAppend(s.log, id);
      LastAppend(s.log, id);
      SpacedSuffix(s.log + [id]);
    }
  }

  // ---------------------------------------------------------------------
  // A restart rebuilds the memory exactly when the log allows it
  // ---------------------------------------------------------------------

  /** What first-appearance reading keeps of a second part of the log. */
  function New(pre: seq<Id>, post: seq<Id>): seq<Id> {
    if post == [] then []
    else
      var x := post[|post| - 1];
      New(pre, post[..|post| - 1]) + if x == BLANK || x in pre then [] else [x]
  }

  lemma {:induction false} FirstsElems(log: seq<Id>)
    ensures forall x :: x in Firsts(log) <==> x in log && x != BLANK
    ensures |Firsts(log)| <= |log|
  {
    if log != [] {
      var n := |log| - 1;
      assert log == log[..n] + [log[n]];
      FirstsElems(log[..n]);
    }
  }

  lemma {:induction false} NewElems(pre: seq<Id>, post: seq<Id>)
    ensures forall x :: x in New(pre, post) <==> x in post && x !in pre && x != BLANK
    ensures |New(pre, post)| <= |post|
    ensures |New(pre, post)| == |post| <==> New(pre, post) == post
    ensures New(pre, post) == post <==> BLANK !in post && forall x :: x in post ==> x !in pre
  {
    if post != [] {
      var n := |post| - 1;
      assert post == post[..n] + [post[n]];
      NewElems(pre, post[..n]);
    }
  }

  lemma FirstsNext(log: seq<Id>, x: Id)
    ensures Firsts(log + [x]) == if x == BLANK || x in log then Firsts(log) else Firsts(log) + [x]
  {
    assert (log + [x])[..|log|] == log;
    FirstsElems(log);
  }

  lemma {:induction false} FirstsSplit(pre: seq<Id>, post: seq<Id>)
    requires Distinct(post)
    ensures Firsts(pre + post) == Firsts(pre) + New(pre, post)
  {
    if post == [] {
      assert pre + post == pre;
    } else {
      var n := |post| - 1;
      var rest, x := post[..n], post[n];
      assert pre + post == (pre + rest) + [x];
      FirstsSplit(pre, rest);
      FirstsNext(pre + rest, x);
      assert x in pre + rest <==> x in pre;
      Assoc(Firsts(pre), New(pre, rest), x);
    }
  }

  lemma Assoc(s: seq<Id>, t: seq<Id>, x: Id)
    ensures s + (t + [x]) == (s + t) + [x] && t + [] == t
  {
  }

  /** At most 500 lines precede the window, so its oldest id has no copy among them. */
  lemma HeadIsNotEvicted(s: State)
    requires Consistent(s) && s.order != []
    ensures s.order[0] !in Evicted(s)
  {
    var k := |s.log| - |s.order|;
    assert s.log[k] == s.order[0];
    assert forall p :: 0 <= p < k ==> s.log[p] == Evicted(s)[p];
  }

  /** Reading the log back gives the memory exactly when it is rebuildable. */
  lemma ReadBack(s: State)
    requires Consistent(s)
    ensures Last(Firsts(s.log), BOUND) == s.order <==> Rebuildable(s)
  {
    var pre, order := Evicted(s), s.order;
    assert s.log == pre + order;
    SpacedSuffix(s.log);
    FirstsSplit(pre, order);
    NewElems(pre, order);
    FirstsElems(pre);
    var seen, added := Firsts(pre), New(pre, order);
    if |added| < |order| {
      HeadIsNotEvicted(s);
      MissingHead(seen, added, order);
    } else {
      LastOfSum(seen, order);
    }
  }

  /** A window filled up from before its own ids does not start with its own head. */
  lemma MissingHead(seen: seq<Id>, added: seq<Id>, order: seq<Id>)
    requires |added| < |order| && order[0] !in seen && (|order| == BOUND || seen == [])
    ensures Last(seen + added, BOUND) != order
  {
    var all := seen + added;
    if |all| >= BOUND {
      var k := |all| - BOUND;
      assert Last(all, BOUND)[0] == all[k];
      assert |order| == BOUND ==> all[k] in seen;
    }
  }

  lemma LastOfSum(s: seq<Id>, t: seq<Id>)
    requires |t| == BOUND || (s == [] && |t| <= BOUND)
    ensures Last(s + t, BOUND) == t
  {
  }

  /** Every restart of the run found its log rebuildable and free of empty ids. */
  predicate Faithful(steps: seq<Step>) {
    steps == [] ||
    var before := Run(steps[..|steps| - 1]);
    && Faithful(steps[..|steps| - 1])
    && (steps[|steps| - 1].Reopen? ==> |before.order| <= |before.log| && Rebuildable(before) && BLANK !in before.log)
  }

  /** Every line but the blank ones is counted. */
  lemma {:induction false} UsableExactly(log: seq<Id>)
    ensures Usable(log) + multiset(log)[BLANK] == |log|
  {
    if log != [] {
      var n := |log| - 1;
      UsableExactly(log[..n]);
      assert log == log[..n] + [log[n]];
    }
  }

  lemma {:induction false} AllUsable(log: seq<Id>)
    requires BLANK !in log
    ensures Usable(log) == |log|
  {
    if log != [] {
      AllUsable(log[..|log| - 1]);
    }
  }

  lemma {:induction false} FaithfulConsistent(steps: seq<Step>)
    requires Faithful(steps)
    ensures Consistent(Run(steps))
  {
    if steps != [] {
      var n := |steps| - 1;
      FaithfulConsistent(steps[..n]);
      var s := Run(steps[..n]);
      match steps[n]
      case Handle(id) => MarkConsistent(s, id);
      case Reopen =>
        ReadBack(s);
        AllUsable(s.log);
    }
  }

  /** The memory is the last 500 accepted ids, however often the client was restarted. */
  lemma {:induction false} MemoryIsWindow(steps: seq<Step>)
    requires Faithful(steps)
    ensures Run(steps).order == Last(Accepted(steps), BOUND)
    ensures Spaced(Accepted(steps)) && Distinct(Run(steps).order)
  {
    if steps != [] {
      var n := |steps| - 1;
      MemoryIsWindow(steps[..n]);
      FaithfulConsistent(steps[..n]);
      var s, accepted := Run(steps[..n]), Accepted(steps[..n]);
      match steps[n]
      case Handle(id) =>
        if id !in s.order {
          SpacedAppend(accepted, id);
          LastAppend(accepted, id);
        }
      case Reopen => ReadBack(s);
    }
    SpacedSuffix(Accepted(steps));
  }

  /** After any such run, a restart rebuilds the same memory in the same order exactly when no remembered id is empty
      or has an older copy left in the log. */
  lemma RestartRebuildsExactly(steps: seq<Step>)
    requires Faithful(steps)
    ensures var s := Run(steps);
            |s.order| <= |s.log| && (Restart(s).order == s.order <==> Rebuildable(s))
  {
    FaithfulConsistent(steps);
    ReadBack(Run(steps));
  }

  lemma RemarkedLog(a: Id, others: seq<Id>)
    requires a != BLANK && a !in others && |others| == BOUND && Distinct(others) && BLANK !in others
    ensures var log := [a] + others + [a];
            a in Last(log, BOUND) && Last(Firsts(log), BOUND) == others
  {
    assert Last([a] + others + [a], BOUND)[BOUND - 1] == a;
    FirstsSplit([a], others);
    NewElems([a], others);
    assert [] + [a] == [a];
    FirstsNext([], a);
    FirstsNext([a] + others, a);
    LastOfSum([a], others);
  }

  function Handles(ids: seq<Id>): (steps: seq<Step>)
    ensures |steps| == |ids|
  {
    if ids == [] then [] else Handles(ids[..|ids| - 1]) + [Handle(ids[|ids| - 1])]
  }

  lemma SpacedFront(ids: seq<Id>)
    requires ids != [] && Spaced(ids)
    ensures var n := |ids| - 1; Spaced(ids[..n]) && ids[n] !in Last(ids[..n], BOUND)
  {
    var n := |ids| - 1;
    var front := ids[..n];
    assert forall i :: 0 <= i < n ==> front[i] == ids[i];
    var r := Last(front, BOUND);
    assert forall i :: 0 <= i < |r| ==> r[i] == ids[n - |r| + i];
  }

  /** Ids more than a window apart are all accepted, and up to 1000 of them are the log. */
  lemma {:induction false} HandlesAreLogged(ids: seq<Id>)
    requires Spaced(ids) && |ids| <= COMPACT_AT
    ensures Run(Handles(ids)) == State(Last(ids, BOUND), |ids|, ids, |ids|)
  {
    if ids != [] {
      var n := |ids| - 1;
      SpacedFront(ids);
      HandlesAreLogged(ids[..n]);
      LastAppend(ids[..n], ids[n]);
      assert ids[..n] + [ids[n]] == ids;
      assert Handles(ids)[..n] == Handles(ids[..n]);
    }
  }

  lemma RemarkedIsSpaced(a: Id, others: seq<Id>)
    requires a !in others && |others| == BOUND && Distinct(others)
    ensures Spaced([a] + others + [a])
  {
    var ids := [a] + others + [a];
    assert forall i :: 1 <= i <= BOUND ==> ids[i] == others[i - 1] && ids[i] in others;
  }

  /** The condition is needed: in a run that marks an id, five hundred others and the id again, it is remembered until
      the restart, which forgets it. */
  lemma RemarkedIdIsForgotten(a: Id, others: seq<Id>)
    requires a != BLANK && a !in others && |others| == BOUND && Distinct(others) && BLANK !in others
    ensures var steps := Handles([a] + others + [a]);
            && Faithful(steps) && a in Run(steps).order
            && |Run(steps).order| <= |Run(steps).log| && !Rebuildable(Run(steps))
            && Run(steps + [Reopen]).order == others
  {
    var ids := [a] + others + [a];
    var steps := Handles(ids);
    RemarkedIsSpaced(a, others);
    HandlesAreLogged(ids);
    RemarkedLog(a, others);
    HandlesAreFaithful(ids);
    RestartRebuildsExactly(steps);
    assert (steps + [Reopen])[..|steps|] == steps;
  }

  lemma {:induction false} HandlesAreFaithful(ids: seq<Id>)
    ensures Faithful(Handles(ids))
  {
    if ids != [] {
      var n := |ids| - 1;
      HandlesAreFaithful(ids[..n]);
      assert Handles(ids)[..n] == Handles(ids[..n]);
    }
  }

  // ---------------------------------------------------------------------
  // What the log costs
  // ---------------------------------------------------------------------

  /** Over every run, n marks write at most 2n lines, compactions and restarts included. */
  lemma {:induction false} WritesAreLinear(steps: seq<Step>)
    ensures var s := Run(steps);
            s.written + s.lines <= 2 * Marks(steps) && Usable(s.log) <= s.lines && |s.order| <= BOUND
  {
    if steps != [] {
      var n := |steps| - 1;
      WritesAreLinear(steps[..n]);
      var s := Run(steps[..n]);
      match steps[n]
      case Handle(id) => assert (s.log + [id])[..|s.log|] == s.log;
      case Reopen =>
    }
  }

  // ---------------------------------------------------------------------
  // Giving up
  // ---------------------------------------------------------------------

  datatype Attempt = Failed(id: Id) | Succeeded(id: Id)

  function Record(f: Failures, a: Attempt): Failures {
    match a
    case Failed(id) => Fail(f, id)
    case Succeeded(id) => if id in f.counts then Forget(f, id) else f
  }

  function FailureRun(attempts: seq<Attempt>): Failures {
    if attempts == [] then Failures(map[], [])
    else Record(FailureRun(attempts[..|attempts| - 1]), attempts[|attempts| - 1])
  }

  /** Failures of the id since its last success or give-up. */
  function Streak(attempts: seq<Attempt>, id: Id): (n: nat)
    ensures n < MAX_ATTEMPTS
  {
    if attempts == [] then 0 else Extend(Streak(attempts[..|attempts| - 1], id), attempts[|attempts| - 1], id)
  }

  function Extend(streak: nat, a: Attempt, id: Id): (n: nat)
    requires streak < MAX_ATTEMPTS
    ensures n < MAX_ATTEMPTS
  {
    if a.id != id then streak else if a.Succeeded? then 0 else (streak + 1) % MAX_ATTEMPTS
  }

  function FailedIds(attempts: seq<Attempt>): set<Id> {
    if attempts == [] then {}
    else
      var last := attempts[|attempts| - 1];
      FailedIds(attempts[..|attempts| - 1]) + if last.Failed? then {last.id} else {}
  }

  predicate Tidy(f: Failures) {
    Distinct(f.order) && Elems(f.order) == f.counts.Keys
  }

  lemma {:induction false} KeepElems(order: seq<Id>, counts: map<Id, nat>)
    ensures Elems(Keep(order, counts)) == Elems(order) * counts.Keys
    ensures Distinct(order) ==> Distinct(Keep(order, counts))
    ensures |Keep(order, counts)| <= |order|
  {
    if order != [] {
      var n := |order| - 1;
      assert order == order[..n] + [order[n]];
      KeepElems(order[..n], counts);
      var kept, x := Keep(order[..n], counts), order[n];
      assert forall i :: 0 <= i < |kept| ==> kept[i] in Elems(kept);
      assert Elems(order) == Elems(order[..n]) + {x};
      assert Elems(kept + [x]) == Elems(kept) + {x} && kept + [] == kept;
    }
  }

  lemma ForgetTidy(f: Failures, id: Id)
    requires Tidy(f)
    ensures Tidy(Forget(f, id)) && Forget(f, id).counts.Keys <= f.counts.Keys
  {
    KeepElems(f.order, f.counts - {id});
  }

  lemma {:induction false} KeepAll(order: seq<Id>, counts: map<Id, nat>)
    requires Elems(order) <= counts.Keys
    ensures Keep(order, counts) == order
  {
    if order != [] {
      var n := |order| - 1;
      assert order == order[..n] + [order[n]];
      KeepAll(order[..n], counts);
    }
  }

  lemma AppendDistinct(order: seq<Id>, id: Id)
    requires Distinct(order) && id !in order
    ensures Distinct(order + [id]) && Elems(order + [id]) == Elems(order) + {id}
  {
  }

  lemma TrimNothing(counts: map<Id, nat>, order: seq<Id>)
    requires |order| <= BOUND && Elems(order) == counts.Keys
    ensures Trim(counts, order) == Failures(counts, order)
  {
    assert Last(order, BOUND) == order && order[..0] == [] && Elems(order[..0]) == {};
    assert counts - {} == counts;
    KeepAll(order, counts);
  }

  predicate Room(f: Failures, id: Id) {
    id in f.counts || |f.order| < BOUND
  }

  lemma RoomForOne(f: Failures, failed: set<Id>, id: Id)
    requires Tidy(f) && f.counts.Keys <= failed && id in failed && |failed| <= BOUND
    ensures |f.order| <= BOUND && Room(f, id)
  {
    DistinctSize(f.order);
    SubsetSize(f.counts.Keys, failed);
    if id !in f.counts {
      SubsetSize(f.counts.Keys + {id}, failed);
    }
  }

  lemma FailAgain(f: Failures, id: Id)
    requires Tidy(f) && |f.order| <= BOUND && id in f.counts && f.counts[id] + 1 < MAX_ATTEMPTS
    ensures Fail(f, id) == Failures(f.counts[id := f.counts[id] + 1], f.order) && Tidy(Fail(f, id))
  {
    var counts := f.counts[id := f.counts[id] + 1];
    assert counts.Keys == f.counts.Keys;
    TrimNothing(counts, f.order);
  }

  lemma FailFirst(f: Failures, id: Id)
    requires Tidy(f) && |f.order| < BOUND && id !in f.counts
    ensures Fail(f, id) == Failures(f.counts[id := 1], f.order + [id]) && Tidy(Fail(f, id))
  {
    var counts := f.counts[id := 1];
    assert id !in Elems(f.order);
    AppendDistinct(f.order, id);
    assert counts.Keys == f.counts.Keys + {id};
    TrimNothing(counts, f.order + [id]);
  }

  lemma FailTidy(f: Failures, id: Id)
    requires Tidy(f) && |f.order| <= BOUND && Room(f, id) && Attempts(f, id) < MAX_ATTEMPTS
    ensures Tidy(Fail(f, id))
    ensures Fail(f, id).counts == if Attempts(f, id) + 1 == MAX_ATTEMPTS then f.counts - {id}
            else f.counts[id := Attempts(f, id) + 1]
  {
    if Attempts(f, id) + 1 >= MAX_ATTEMPTS {
      ForgetTidy(f, id);
    } else if id in f.counts {
      FailAgain(f, id);
    } else {
      FailFirst(f, id);
    }
  }

  lemma SucceedTidy(f: Failures, id: Id)
    requires Tidy(f)
    ensures Tidy(Record(f, Succeeded(id))) && Record(f, Succeeded(id)).counts == f.counts - {id}
  {
    if id in f.counts {
      ForgetTidy(f, id);
    } else {
      assert f.counts - {id} == f.counts;
    }
  }

  lemma RecordTidy(f: Failures, a: Attempt, failed: set<Id>)
    requires Tidy(f) && f.counts.Keys <= failed && |failed| <= BOUND && (a.Failed? ==> a.id in failed)
    requires Attempts(f, a.id) < MAX_ATTEMPTS
    ensures Tidy(Record(f, a)) && Record(f, a).counts == Counted(f, a)
  {
    if a.Failed? {
      RoomForOne(f, failed, a.id);
      FailTidy(f, a.id);
    } else {
      SucceedTidy(f, a.id);
    }
  }

  lemma CountedKeys(f: Failures, a: Attempt, failed: set<Id>)
    requires f.counts.Keys <= failed && (a.Failed? ==> a.id in failed)
    ensures Counted(f, a).Keys <= failed
  {
  }

  function Counted(f: Failures, a: Attempt): map<Id, nat> {
    if a.Succeeded? || Attempts(f, a.id) + 1 == MAX_ATTEMPTS then f.counts - {a.id}
    else f.counts[a.id := Attempts(f, a.id) + 1]
  }

  lemma CountedExtends(f: Failures, f': Failures, a: Attempt, id: Id)
    requires Attempts(f, id) < MAX_ATTEMPTS && f'.counts == Counted(f, a)
    ensures Attempts(f', id) == Extend(Attempts(f, id), a, id)
  {
  }

  /** While at most 500 different ids fail, an envelope is given up on exactly at every third failure since its last
      success. */
  lemma {:induction false} ThirdFailureGivesUp(attempts: seq<Attempt>, id: Id)
    requires |FailedIds(attempts)| <= BOUND
    ensures Attempts(FailureRun(attempts), id) == Streak(attempts, id)
    ensures Tidy(FailureRun(attempts)) && FailureRun(attempts).counts.Keys <= FailedIds(attempts)
  {
    if attempts != [] {
      var n := |attempts| - 1;
      var before, last := attempts[..n], attempts[n];
      SubsetSize(FailedIds(before), FailedIds(attempts));
      ThirdFailureGivesUp(before, id);
      ThirdFailureGivesUp(before, last.id);
      var f := FailureRun(before);
      RecordTidy(f, last, FailedIds(attempts));
      CountedKeys(f, last, FailedIds(attempts));
      CountedExtends(f, Record(f, last), last, id);
    }
  }
}

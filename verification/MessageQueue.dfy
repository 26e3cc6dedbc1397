/**
 The message queue (internal/store/messages.go) and the per-recipient enqueue
 path (internal/api/messages.go). A transaction is one atomic step; text ids and
 devices are numbered.
 */
module MessageQueue {
  import opened Collections

  type Id = nat
  type Device = nat

  datatype Message = Message(id: Id, recipient: Device, payload: int, expires: int)

  type Rows = map<Id, Message>

  datatype Outcome = Queued | Invalid | UnknownRecipient | Duplicate | QueueFull

  /** One item: what the checks before the transaction say of it, and the message it would queue. */
  datatype Item = Item(message: Message, wellFormed: bool, recipientActive: bool, accountMatches: bool,
                       accountActive: bool)

  function Pending(rows: Rows, d: Device): set<Id> {
    set id | id in rows && rows[id].recipient == d
  }

  function Checked(item: Item): Outcome {
    if !item.wellFormed then Invalid
    else if !item.recipientActive then UnknownRecipient
    else if !item.accountMatches then Invalid
    else if !item.accountActive then UnknownRecipient
    else Queued
  }

  /** The transaction: the cap is looked at before the id. */
  function Insertion(rows: Rows, m: Message, cap: nat): Outcome {
    if |Pending(rows, m.recipient)| >= cap then QueueFull
    else if m.id in rows then Duplicate
    else Queued
  }

  function Answer(rows: Rows, item: Item, cap: nat): Outcome {
    if Checked(item) != Queued then Checked(item) else Insertion(rows, item.message, cap)
  }

  function Enqueue(rows: Rows, item: Item, cap: nat): Rows {
    if Answer(rows, item, cap) == Queued then rows[item.message.id := item.message] else rows
  }

  function Delete(rows: Rows, id: Id, d: Device): Rows {
    if id in rows && rows[id].recipient == d then rows - {id} else rows
  }

  function Unexpired(rows: Rows, now: int): Rows {
    map id | id in rows && rows[id].expires >= now :: rows[id]
  }

  /** ON DELETE CASCADE from a device, or from its account, to the device's queue. */
  function WithoutDevice(rows: Rows, d: Device): Rows {
    map id | id in rows && rows[id].recipient != d :: rows[id]
  }

  // ---------------------------------------------------------------------
  // As the source does it
  // ---------------------------------------------------------------------

  class Queue {
    var rows: Rows

    constructor ()
      ensures rows == map[]
    {
      rows := map[];
    }

    method CountPendingMessages(d: Device) returns (n: nat)
      ensures n == |Pending(rows, d)|
    {
      n := 0;
      var todo := rows.Keys;
      ghost var counted: set<Id> := {};
      while todo != {}
        invariant todo <= rows.Keys && counted == Pending(rows, d) - todo && n == |counted|
        decreases |todo|
      {
        var id :| id in todo;
        if rows[id].recipient == d {
          n := n + 1;
          counted := counted + {id};
        }
        todo := todo - {id};
      }
      assert counted == Pending(rows, d);
    }

    method CreateMessageUnderCap(m: Message, cap: nat) returns (outcome: Outcome)
      modifies this
      ensures outcome == Insertion(old(rows), m, cap)
      ensures rows == if outcome == Queued then old(rows)[m.id := m] else old(rows)
    {
      var count := CountPendingMessages(m.recipient);
      if count >= cap {
        return QueueFull;
      }
      if m.id in rows {
        return Duplicate;
      }
      rows := rows[m.id := m];
      return Queued;
    }

    method EnqueueMessage(item: Item, cap: nat) returns (outcome: Outcome)
      modifies this
      ensures outcome == Answer(old(rows), item, cap) && rows == Enqueue(old(rows), item, cap)
    {
      if !item.wellFormed {
        return Invalid;
      }
      if !item.recipientActive {
        return UnknownRecipient;
      }
      if !item.accountMatches {
        return Invalid;
      }
      if !item.accountActive {
        return UnknownRecipient;
      }
      outcome := CreateMessageUnderCap(item.message, cap);
    }

    method DeleteMessage(id: Id, d: Device) returns (found: bool)
      modifies this
      ensures found <==> id in old(rows) && old(rows)[id].recipient == d
      ensures rows == Delete(old(rows), id, d)
    {
      found := id in rows && rows[id].recipient == d;
      if found {
        rows := rows - {id};
      }
    }

    method PurgeExpiredMessages(now: int) returns (removed: nat)
      modifies this
      ensures rows == Unexpired(old(rows), now) && removed + |rows| == |old(rows)|
    {
      removed := 0;
      var todo := rows.Keys;
      while todo != {}
        invariant todo <= old(rows).Keys && removed + |rows| == |old(rows)|
        invariant rows.Keys <= old(rows).Keys && forall id :: id in rows ==> rows[id] == old(rows)[id]
        invariant forall id :: id in old(rows) ==> (id in rows <==> id in todo || old(rows)[id].expires >= now)
        decreases |todo|
      {
        var id :| id in todo;
        if rows[id].expires < now {
          var rest := rows - {id};
          assert rest.Keys == rows.Keys - {id};
          rows, removed := rest, removed + 1;
        }
        todo := todo - {id};
      }
    }

    /** A batch of acceptable size answers every item, in order, and carries on past failures. */
    method SendBatch(items: seq<Item>, cap: nat, maxBatch: nat) returns (accepted: bool, results: seq<Outcome>)
      modifies this
      ensures accepted <==> 0 < |items| <= maxBatch
      ensures !accepted ==> rows == old(rows) && results == []
      ensures accepted ==> |results| == |items| && rows == After(old(rows), items, cap)
      ensures accepted ==> forall i :: 0 <= i < |items| ==> results[i] == AnswerAt(old(rows), items, i, cap)
    {
      results := [];
      if |items| == 0 || |items| > maxBatch {
        return false, [];
      }
      for i := 0 to |items|
        invariant |results| == i && rows == After(old(rows), items[..i], cap)
        invariant forall j :: 0 <= j < i ==> results[j] == AnswerAt(old(rows), items, j, cap)
      {
        var outcome := EnqueueMessage(items[i], cap);
        results := results + [outcome];
        AfterNext(old(rows), items, i, cap);
      }
      assert items[..|items|] == items;
      accepted := true;
    }
  }

  function After(rows: Rows, items: seq<Item>, cap: nat): Rows {
    if items == [] then rows else Enqueue(After(rows, items[..|items| - 1], cap), items[|items| - 1], cap)
  }

  /** What item i is told: the outcome against the rows the items before it left. */
  function AnswerAt(rows: Rows, items: seq<Item>, i: nat, cap: nat): Outcome
    requires i < |items|
  {
    Answer(After(rows, items[..i], cap), items[i], cap)
  }

  lemma AfterNext(rows: Rows, items: seq<Item>, i: nat, cap: nat)
    requires i < |items|
    ensures After(rows, items[..i + 1], cap) == Enqueue(After(rows, items[..i], cap), items[i], cap)
  {
    assert items[..i + 1][..i] == items[..i];
  }

  // ---------------------------------------------------------------------
  // Every interleaving
  // ---------------------------------------------------------------------

  datatype Step =
    | Send(item: Item)
    | Remove(id: Id, device: Device)
    | Purge(now: int)
    | RemoveDevice(device: Device)

  function Apply(rows: Rows, step: Step, cap: nat): Rows {
    match step
    case Send(item) => Enqueue(rows, item, cap)
    case Remove(id, d) => Delete(rows, id, d)
    case Purge(now) => Unexpired(rows, now)
    case RemoveDevice(d) => WithoutDevice(rows, d)
  }

  function Run(steps: seq<Step>, cap: nat): Rows {
    if steps == [] then map[] else Apply(Run(steps[..|steps| - 1], cap), steps[|steps| - 1], cap)
  }

  predicate Keyed(rows: Rows) {
    forall id :: id in rows ==> rows[id].id == id
  }

  lemma StepKeepsCap(rows: Rows, step: Step, cap: nat, d: Device)
    requires |Pending(rows, d)| <= cap
    ensures |Pending(Apply(rows, step, cap), d)| <= cap
  {
    var rows' := Apply(rows, step, cap);
    if rows' != rows && step.Send? {
      var m := step.item.message;
      assert m.id !in rows && rows' == rows[m.id := m];
      assert Pending(rows', d) == Pending(rows, d) + if m.recipient == d then {m.id} else {};
    } else {
      SubsetSize(Pending(rows', d), Pending(rows, d));
    }
  }

  /** In every interleaving of sends, deletes, purges and device removals no device's queue exceeds the cap. */
  lemma {:induction false} QueueStaysWithinCap(steps: seq<Step>, cap: nat, d: Device)
    ensures |Pending(Run(steps, cap), d)| <= cap && Keyed(Run(steps, cap))
  {
    if steps == [] {
      assert Pending(map[], d) == {};
    } else {
      var n := |steps| - 1;
      QueueStaysWithinCap(steps[..n], cap, d);
      StepKeepsCap(Run(steps[..n], cap), steps[n], cap, d);
    }
  }

  /** "Queued" is reported exactly when the message became a row that was not there before, and nothing else moved. */
  lemma QueuedMeansCommitted(rows: Rows, item: Item, cap: nat)
    ensures var rows' := Enqueue(rows, item, cap);
            Answer(rows, item, cap) == Queued <==>
              item.message.id !in rows && item.message.id in rows' && rows'[item.message.id] == item.message
                && rows' - {item.message.id} == rows
  {
    var id := item.message.id;
    if Answer(rows, item, cap) == Queued {
      assert rows[id := item.message] - {id} == rows;
    }
  }

  /** Nothing about the item itself stands in the way. */
  predicate Deliverable(item: Item) {
    item.wellFormed && item.recipientActive && item.accountMatches && item.accountActive
  }

  /** Each answer, exactly: a mismatched account counts only for an active device, an inactive account only after it,
      and a full queue before a repeated id. */
  lemma AnswerExactly(rows: Rows, item: Item, cap: nat)
    ensures var room := |Pending(rows, item.message.recipient)| < cap;
            var answer := Answer(rows, item, cap);
            && (answer == Queued <==> Deliverable(item) && room && item.message.id !in rows)
            && (answer == Duplicate <==> Deliverable(item) && room && item.message.id in rows)
            && (answer == QueueFull <==> Deliverable(item) && !room)
            && (answer == Invalid <==> !item.wellFormed || (item.recipientActive && !item.accountMatches))
            && (answer == UnknownRecipient <==>
                  item.wellFormed && (!item.recipientActive || (item.accountMatches && !item.accountActive)))
  {
  }

  /** A queued message posted again adds no second row. It is answered as a repeat, which the sender takes for
      delivered, exactly if the first copy did not take the last place; else as a full queue. */
  lemma ResendIsInert(rows: Rows, item: Item, cap: nat)
    requires Keyed(rows) && Answer(rows, item, cap) == Queued
    ensures var rows' := Enqueue(rows, item, cap);
            && Enqueue(rows', item, cap) == rows'
            && (Answer(rows', item, cap) == Duplicate <==> |Pending(rows, item.message.recipient)| + 1 < cap)
            && (Answer(rows', item, cap) == QueueFull <==> |Pending(rows, item.message.recipient)| + 1 == cap)
  {
    var rows', d := Enqueue(rows, item, cap), item.message.recipient;
    assert Pending(rows', d) == Pending(rows, d) + {item.message.id};
  }

  /** The three ways out of the queue: the device deletes the message, its retention passes, the device is removed. */
  predicate TakesOut(step: Step, m: Message) {
    match step
    case Send(_) => false
    case Remove(id, device) => id == m.id && device == m.recipient
    case Purge(now) => now > m.expires
    case RemoveDevice(device) => device == m.recipient
  }

  /** A queued message leaves in a step exactly if it is one of those, and is never altered. */
  lemma LeavesExactly(rows: Rows, step: Step, cap: nat, id: Id)
    requires Keyed(rows) && id in rows
    ensures id !in Apply(rows, step, cap) <==> TakesOut(step, rows[id])
    ensures id in Apply(rows, step, cap) ==> Apply(rows, step, cap)[id] == rows[id]
  {
  }

  /** So over any run it stays, unaltered, as long as no step is one of those. */
  lemma {:induction false} QueuedMessageStays(steps: seq<Step>, more: seq<Step>, cap: nat, id: Id)
    requires id in Run(steps, cap)
    requires forall step :: step in more ==> !TakesOut(step, Run(steps, cap)[id])
    ensures var rows := Run(steps + more, cap); id in rows && rows[id] == Run(steps, cap)[id]
  {
    if more == [] {
      assert steps + more == steps;
    } else {
      var n := |more| - 1;
      assert more[n] in more && forall step :: step in more[..n] ==> step in more;
      QueuedMessageStays(steps, more[..n], cap, id);
      QueueStaysWithinCap(steps + more[..n], cap, 0);
      LeavesExactly(Run(steps + more[..n], cap), more[n], cap, id);
      assert (steps + more)[..|steps| + n] == steps + more[..n];
    }
  }

  /** An item refused in a batch costs the others nothing: without it, every later item meets the same rows. */
  lemma {:induction false} RefusedItemsAreInert(rows: Rows, before: seq<Item>, item: Item, after: seq<Item>, cap: nat)
    requires Answer(After(rows, before, cap), item, cap) != Queued
    ensures After(rows, before + [item] + after, cap) == After(rows, before + after, cap)
  {
    if after == [] {
      assert (before + [item] + after)[..|before|] == before && before + after == before;
    } else {
      var n := |after| - 1;
      RefusedItemsAreInert(rows, before, item, after[..n], cap);
      assert (before + [item] + after)[..|before| + 1 + n] == before + [item] + after[..n];
      assert (before + after)[..|before| + n] == before + after[..n];
    }
  }
}

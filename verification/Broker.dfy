/**
 The stream broker (internal/api/broker.go) and what a queued message sets off
 (internal/api/messages.go queueAndNotify, wakeDevice): an entry in a live
 stream's buffer, or a push wake through the coalescer.
 */
module Broker {
  import opened Collections
  import WakeCoalescer

  /** Device ids, numbered. */
  type Device = nat
  type Chan = nat
  /** Messages, numbered. */
  type Message = nat

  const BUFFER := 16

  /** subs: open streams per device; buffers: what each channel holds; closed: channels closed so far. */
  datatype State = State(subs: map<Device, seq<Chan>>, buffers: map<Chan, seq<Message>>, closed: set<Chan>, next: Chan)

  const EMPTY := State(map[], map[], {}, 0)

  function Streams(s: State, d: Device): seq<Chan> {
    if d in s.subs then s.subs[d] else []
  }

  predicate Room(s: State, c: Chan) {
    c in s.buffers && |s.buffers[c]| < BUFFER
  }

  /** An open channel: made, not closed, and within its buffer. */
  predicate Live(s: State, c: Chan) {
    c < s.next && c !in s.closed && c in s.buffers && |s.buffers[c]| <= BUFFER
  }

  ghost predicate DeviceInv(s: State, cap: nat, d: Device) {
    && |Streams(s, d)| <= cap
    && Distinct(Streams(s, d))
    && (forall c :: c in Streams(s, d) ==> Live(s, c))
  }

  /** No channel belongs to two devices. */
  ghost predicate Separate(s: State, d: Device, e: Device) {
    d != e ==> forall c :: c in Streams(s, d) ==> c !in Streams(s, e)
  }

  /** No device is over its cap, every subscribed channel is open and is held once, by one device. */
  ghost predicate Inv(s: State, cap: nat) {
    && (forall d :: DeviceInv(s, cap, d))
    && (forall d, e :: Separate(s, d, e))
    && (forall d :: d in s.subs ==> s.subs[d] != [])
    && (forall c :: c in s.closed ==> c < s.next)
  }

  function Subscribe(s: State, d: Device, cap: nat): State {
    if |Streams(s, d)| >= cap then s
    else State(s.subs[d := Streams(s, d) + [s.next]], s.buffers[s.next := []], s.closed, s.next + 1)
  }

  function Without(chans: seq<Chan>, c: Chan): seq<Chan> {
    if chans == [] then []
    else if chans[0] == c then chans[1..]
    else [chans[0]] + Without(chans[1..], c)
  }

  function Unsubscribe(s: State, d: Device, c: Chan): State {
    var left := Without(Streams(s, d), c);
    State(if left == [] then s.subs - {d} else s.subs[d := left], s.buffers, s.closed + {c}, s.next)
  }

  function Fill(buffers: map<Chan, seq<Message>>, chans: seq<Chan>, msg: Message): map<Chan, seq<Message>> {
    map c | c in buffers :: if c in chans && |buffers[c]| < BUFFER then buffers[c] + [msg] else buffers[c]
  }

  lemma FillNext(buffers: map<Chan, seq<Message>>, chans: seq<Chan>, i: nat, msg: Message)
    requires i < |chans| && Distinct(chans) && chans[i] in buffers
    ensures var c := chans[i];
            var filled := Fill(buffers, chans[..i], msg);
            && filled[c] == buffers[c]
            && Fill(buffers, chans[..i + 1], msg)
               == if |buffers[c]| < BUFFER then filled[c := buffers[c] + [msg]] else filled
  {
    assert chans[..i + 1] == chans[..i] + [chans[i]];
    assert chans[i] !in chans[..i];
  }

  /** Every stream of the device with room takes the message; nothing else changes. */
  function Publish(s: State, d: Device, msg: Message): State {
    s.(buffers := Fill(s.buffers, Streams(s, d), msg))
  }

  /** One of the first n channels has room. */
  predicate RoomAmong(s: State, chans: seq<Chan>, n: nat)
    requires n <= |chans|
  {
    exists i :: 0 <= i < n && Room(s, chans[i])
  }

  lemma RoomNext(s: State, chans: seq<Chan>, n: nat)
    requires n < |chans|
    ensures RoomAmong(s, chans, n + 1) <==> RoomAmong(s, chans, n) || Room(s, chans[n])
  {
  }

  predicate Responsive(s: State, d: Device) {
    RoomAmong(s, Streams(s, d), |Streams(s, d)|)
  }

  function Drain(s: State, c: Chan): State {
    if c in s.buffers && s.buffers[c] != [] then s.(buffers := s.buffers[c := s.buffers[c][1..]]) else s
  }

  // ---------------------------------------------------------------------
  // As the source does it
  // ---------------------------------------------------------------------

  class MessageBroker {
    var subs: map<Device, seq<Chan>>
    var buffers: map<Chan, seq<Message>>
    var closed: set<Chan>
    var next: Chan

    function Value(): State
      reads this
    {
      State(subs, buffers, closed, next)
    }

    constructor ()
      ensures Value() == EMPTY
    {
      subs, buffers, closed, next := map[], map[], {}, 0;
    }

    method SubscribeStream(d: Device, cap: nat) returns (ok: bool, c: Chan)
      modifies this
      ensures Value() == Subscribe(old(Value()), d, cap)
      ensures ok == (|Streams(old(Value()), d)| < cap) && (ok ==> c == old(next))
    {
      c := next;
      if |Streams(Value(), d)| >= cap {
        return false, c;
      }
      subs := subs[d := Streams(Value(), d) + [c]];
      buffers := buffers[c := []];
      next := next + 1;
      return true, c;
    }

    method UnsubscribeStream(d: Device, c: Chan)
      modifies this
      ensures Value() == Unsubscribe(old(Value()), d, c)
    {
      var streams := Streams(Value(), d);
      var i := 0;
      while i < |streams| && streams[i] != c
        invariant 0 <= i <= |streams| && Value() == old(Value())
        invariant Without(streams, c) == streams[..i] + Without(streams[i..], c)
      {
        i := i + 1;
      }
      var left := if i < |streams| then streams[..i] + streams[i + 1..] else streams;
      assert streams[..|streams|] == streams;
      assert left == Without(streams, c);
      if left == [] {
        subs := subs - {d};
      } else {
        subs := subs[d := left];
      }
      closed := closed + {c};
    }

    /** Reports whether at least one stream took the message. */
    method PublishMessage(d: Device, msg: Message, ghost cap: nat) returns (delivered: bool)
      requires Inv(Value(), cap)
      modifies this`buffers
      ensures Value() == Publish(old(Value()), d, msg)
      ensures delivered == Responsive(old(Value()), d)
    {
      delivered := false;
      ghost var before := Value();
      var streams := if d in subs then subs[d] else [];
      assert DeviceInv(before, cap, d);
      for i := 0 to |streams|
        invariant buffers == Fill(before.buffers, streams[..i], msg)
        invariant delivered == RoomAmong(before, streams, i)
      {
        var c := streams[i];
        assert c in streams && Live(before, c);
        assert c !in closed; // a send on a closed channel would panic
        FillNext(before.buffers, streams, i, msg);
        RoomNext(before, streams, i);
        if |buffers[c]| < BUFFER {
          buffers := buffers[c := buffers[c] + [msg]];
          delivered := true;
        }
      }
      assert streams[..|streams|] == streams;
    }
  }

  // ---------------------------------------------------------------------
  // Every step keeps the invariant
  // ---------------------------------------------------------------------

  lemma Appended(chans: seq<Chan>, c: Chan)
    requires Distinct(chans) && c !in chans
    ensures Distinct(chans + [c])
  {
  }

  lemma SubscribeKeeps(s: State, cap: nat, d: Device)
    requires Inv(s, cap)
    ensures Inv(Subscribe(s, d, cap), cap)
  {
    var s' := Subscribe(s, d, cap);
    if |Streams(s, d)| < cap {
      assert forall e :: e != d ==> Streams(s', e) == Streams(s, e);
      assert Streams(s', d) == Streams(s, d) + [s.next];
      forall e
        ensures DeviceInv(s', cap, e)
        ensures forall c :: c in Streams(s', e) ==> c in Streams(s, e) || (e == d && c == s.next)
      {
        assert DeviceInv(s, cap, e);
        assert forall c :: c in Streams(s, e) ==> Live(s, c) && c != s.next;
        if e == d {
          Appended(Streams(s, d), s.next);
        }
      }
      forall e, f
        ensures Separate(s', e, f)
      {
        assert DeviceInv(s, cap, e) && DeviceInv(s, cap, f) && Separate(s, e, f);
      }
    }
  }

  lemma {:induction false} WithoutMembers(chans: seq<Chan>, c: Chan)
    ensures |Without(chans, c)| <= |chans|
    ensures forall x :: x in Without(chans, c) ==> x in chans
    ensures Distinct(chans) ==> Distinct(Without(chans, c)) && c !in Without(chans, c)
  {
    if chans != [] {
      var rest := chans[1..];
      assert chans == [chans[0]] + rest;
      WithoutMembers(rest, c);
      assert forall i :: 0 <= i < |rest| ==> rest[i] == chans[i + 1];
      assert Distinct(chans) ==> Distinct(rest) && chans[0] !in rest;
      if chans[0] != c {
        assert Without(chans, c) == [chans[0]] + Without(rest, c);
        assert forall x :: x in Without(chans, c) ==> x == chans[0] || x in Without(rest, c);
      }
    }
  }

  lemma UnsubscribeKeeps(s: State, cap: nat, d: Device, c: Chan)
    requires Inv(s, cap) && c in Streams(s, d)
    ensures Inv(Unsubscribe(s, d, c), cap)
  {
    var s' := Unsubscribe(s, d, c);
    assert DeviceInv(s, cap, d);
    WithoutMembers(Streams(s, d), c);
    assert Streams(s', d) == Without(Streams(s, d), c);
    assert forall e :: e != d ==> Streams(s', e) == Streams(s, e);
    forall e
      ensures DeviceInv(s', cap, e)
    {
      assert DeviceInv(s, cap, e) && Separate(s, d, e);
    }
    forall e, f
      ensures Separate(s', e, f)
    {
      assert Separate(s, e, f);
    }
  }

  lemma SameStreamsKeep(s: State, s': State, cap: nat)
    requires Inv(s, cap) && s'.subs == s.subs && s'.closed == s.closed && s'.next == s.next
    requires forall c :: Live(s, c) ==> Live(s', c)
    ensures Inv(s', cap)
  {
    assert forall d :: Streams(s', d) == Streams(s, d);
    forall d
      ensures DeviceInv(s', cap, d)
    {
      assert DeviceInv(s, cap, d);
    }
    forall d, e
      ensures Separate(s', d, e)
    {
      assert Separate(s, d, e);
    }
  }

  // ---------------------------------------------------------------------
  // Broker and coalescer together
  // ---------------------------------------------------------------------

  /** The broker beside the wake coalescer that queueAndNotify falls back on. */
  datatype World = World(broker: State, wakes: WakeCoalescer.World)

  datatype Step =
    | Open(device: Device)
    | Close(device: Device, chan: Chan)
    | Read(chan: Chan)
    | Notify(device: Device, msg: Message)
    | Coalesce(step: WakeCoalescer.Step)

  function Apply(w: World, cap: nat, window: nat, step: Step): World {
    match step
    case Open(d) => w.(broker := Subscribe(w.broker, d, cap))
    case Close(d, c) => if c in Streams(w.broker, d) then w.(broker := Unsubscribe(w.broker, d, c)) else w
    case Read(c) => w.(broker := Drain(w.broker, c))
    case Notify(d, msg) =>
      var published := w.(broker := Publish(w.broker, d, msg));
      if Responsive(w.broker, d) then published
      else published.(wakes := WakeCoalescer.Apply(w.wakes, window, WakeCoalescer.Wake(d)))
    case Coalesce(inner) => w.(wakes := WakeCoalescer.Apply(w.wakes, window, inner))
  }

  function Run(w: World, cap: nat, window: nat, steps: seq<Step>): World {
    if steps == [] then w else Apply(Run(w, cap, window, steps[..|steps| - 1]), cap, window, steps[|steps| - 1])
  }

  function Start(now: nat): World {
    World(EMPTY, WakeCoalescer.Start(now))
  }

  /** In every run: stream caps hold, and every subscribed channel is open. */
  lemma {:induction false} RunKeeps(now: nat, cap: nat, window: nat, steps: seq<Step>)
    ensures var w := Run(Start(now), cap, window, steps);
            Inv(w.broker, cap) && WakeCoalescer.Armed(w.wakes)
  {
    if steps != [] {
      var n := |steps| - 1;
      var w := Run(Start(now), cap, window, steps[..n]);
      RunKeeps(now, cap, window, steps[..n]);
      match steps[n]
      case Open(d) => SubscribeKeeps(w.broker, cap, d);
      case Close(d, c) => if c in Streams(w.broker, d) { UnsubscribeKeeps(w.broker, cap, d, c); }
      case Read(c) => SameStreamsKeep(w.broker, Drain(w.broker, c), cap);
      case Notify(d, msg) =>
        SameStreamsKeep(w.broker, Publish(w.broker, d, msg), cap);
        WakeCoalescer.StepKeepsArmed(w.wakes, window, WakeCoalescer.Wake(d));
      case Coalesce(inner) => WakeCoalescer.StepKeepsArmed(w.wakes, window, inner);
    }
  }

  /** The channel is closed in the first, and in the second too with no more in it. */
  predicate Silenced(s: State, s': State, c: Chan) {
    c in s.closed && c in s.buffers ==> c in s'.closed && c in s'.buffers && |s'.buffers[c]| <= |s.buffers[c]|
  }

  /** A channel that was closed is never written to again, whatever follows. */
  lemma {:induction false} ClosedChannelsAreSilent(now: nat, cap: nat, window: nat, steps: seq<Step>, more: seq<Step>,
                                                   c: Chan)
    ensures Silenced(Run(Start(now), cap, window, steps).broker, Run(Start(now), cap, window, steps + more).broker, c)
  {
    if more == [] {
      assert steps + more == steps;
    } else {
      var n := |more| - 1;
      assert (steps + more)[..|steps| + n] == steps + more[..n] && (steps + more)[|steps| + n] == more[n];
      RunKeeps(now, cap, window, steps + more[..n]);
      ClosedChannelsAreSilent(now, cap, window, steps, more[..n], c);
      ClosedStepSilent(Run(Start(now), cap, window, steps + more[..n]), cap, window, more[n], c);
    }
  }

  lemma ClosedStepSilent(w: World, cap: nat, window: nat, step: Step, c: Chan)
    requires Inv(w.broker, cap)
    ensures Silenced(w.broker, Apply(w, cap, window, step).broker, c)
  {
    match step
    case Notify(d, msg) => assert DeviceInv(w.broker, cap, d);
    case _ =>
  }

  /** Every queued message enters a live buffer of its device, or its wake is sent or armed. */
  lemma EveryMessageIsAnnounced(now: nat, cap: nat, window: nat, steps: seq<Step>, d: Device, msg: Message)
    ensures var w := Run(Start(now), cap, window, steps);
            var w' := Apply(w, cap, window, Notify(d, msg));
            || (exists c :: c in Streams(w'.broker, d) && c !in w'.broker.closed
                  && c in w.broker.buffers && c in w'.broker.buffers
                  && w'.broker.buffers[c] == w.broker.buffers[c] + [msg])
            || WakeCoalescer.Times(w'.wakes.sends, d) == WakeCoalescer.Times(w.wakes.sends, d) + [w.wakes.now]
            || (WakeCoalescer.PendingAt(w'.wakes.devices, d) && WakeCoalescer.Times(w'.wakes.timers, d) != [])
  {
    RunKeeps(now, cap, window, steps);
    RunKeeps(now, cap, window, steps + [Notify(d, msg)]);
    assert (steps + [Notify(d, msg)])[..|steps|] == steps;
    var w := Run(Start(now), cap, window, steps);
    var w' := Apply(w, cap, window, Notify(d, msg));
    if Responsive(w.broker, d) {
      var i :| 0 <= i < |Streams(w.broker, d)| && Room(w.broker, Streams(w.broker, d)[i]);
      var c := Streams(w.broker, d)[i];
      assert DeviceInv(w.broker, cap, d);
      assert c in Streams(w'.broker, d) && w'.broker.buffers[c] == w.broker.buffers[c] + [msg];
    }
  }

  // ---------------------------------------------------------------------
  // Who is subscribed, and what a stream carries
  // ---------------------------------------------------------------------

  lemma {:induction false} WithoutExactly(chans: seq<Chan>, c: Chan, x: Chan)
    requires Distinct(chans)
    ensures x in Without(chans, c) <==> x in chans && x != c
  {
    if chans != [] {
      var rest := chans[1..];
      assert chans == [chans[0]] + rest;
      assert forall i :: 0 <= i < |rest| ==> rest[i] == chans[i + 1];
      assert Distinct(rest) && chans[0] !in rest;
      WithoutExactly(rest, c, x);
    }
  }

  /** A channel is a device's exactly from the open that made it, granted under the cap, to the close that names it;
      and closed exactly from then on. */
  lemma SubscribedExactly(w: World, cap: nat, window: nat, step: Step, d: Device, c: Chan)
    requires Inv(w.broker, cap)
    ensures var s, s' := w.broker, Apply(w, cap, window, step).broker;
            && (c in Streams(s', d) <==>
                  || (c in Streams(s, d) && step != Close(d, c))
                  || (step == Open(d) && c == s.next && |Streams(s, d)| < cap))
            && (c in s'.closed <==> c in s.closed || (step.Close? && step.chan == c && c in Streams(s, step.device)))
  {
    assert DeviceInv(w.broker, cap, d);
    if step.Close? && c in Streams(w.broker, d) {
      assert Separate(w.broker, d, step.device);
    }
    if step.Close? && step.device == d {
      WithoutExactly(Streams(w.broker, d), step.chan, c);
    }
  }

  /** A notification wakes the device exactly if none of its streams has room, and then no buffer changes. */
  lemma WakesOnlyTheAbsent(w: World, cap: nat, window: nat, d: Device, msg: Message)
    ensures var w' := Apply(w, cap, window, Notify(d, msg));
            if exists c :: c in Streams(w.broker, d) && Room(w.broker, c) then w'.wakes == w.wakes
            else w'.wakes == WakeCoalescer.Apply(w.wakes, window, WakeCoalescer.Wake(d)) && w'.broker == w.broker
  {
    if exists c :: c in Streams(w.broker, d) && Room(w.broker, c) {
      var c :| c in Streams(w.broker, d) && Room(w.broker, c);
      var i :| 0 <= i < |Streams(w.broker, d)| && Streams(w.broker, d)[i] == c;
      assert Responsive(w.broker, d);
    }
  }

  /** What the run asks of the coalescer: its own steps, and a wake for each message nobody could take. */
  function Asked(now: nat, cap: nat, window: nat, steps: seq<Step>): seq<WakeCoalescer.Step> {
    if steps == [] then []
    else
      var n := |steps| - 1;
      var s := Run(Start(now), cap, window, steps[..n]).broker;
      Asked(now, cap, window, steps[..n]) + match steps[n]
        case Coalesce(inner) => [inner]
        case Notify(d, _) => if exists c :: c in Streams(s, d) && Room(s, c) then [] else [WakeCoalescer.Wake(d)]
        case _ => []
  }

  /** So the wakes of every run are a run of the coalescer, of which all its laws hold. */
  lemma {:induction false} WakesAreARun(now: nat, cap: nat, window: nat, steps: seq<Step>)
    ensures Run(Start(now), cap, window, steps).wakes ==
            WakeCoalescer.Run(WakeCoalescer.Start(now), window, Asked(now, cap, window, steps))
  {
    if steps != [] {
      var n := |steps| - 1;
      WakesAreARun(now, cap, window, steps[..n]);
      var before, all := Asked(now, cap, window, steps[..n]), Asked(now, cap, window, steps);
      if steps[n].Notify? {
        WakesOnlyTheAbsent(Run(Start(now), cap, window, steps[..n]), cap, window, steps[n].device, steps[n].msg);
      }
      if all != before {
        assert all[..|before|] == before;
      } else {
        assert all == before;
      }
    }
  }

  /** The messages a channel was handed in the run: those of its device, while it was subscribed and had room. */
  function Handed(now: nat, cap: nat, window: nat, steps: seq<Step>, c: Chan): seq<Message> {
    if steps == [] then []
    else
      var n := |steps| - 1;
      var s := Run(Start(now), cap, window, steps[..n]).broker;
      Handed(now, cap, window, steps[..n], c) + HandedIn(s, steps[n], c)
  }

  /** How many of them the stream has written out. */
  function Written(now: nat, cap: nat, window: nat, steps: seq<Step>, c: Chan): nat {
    if steps == [] then 0
    else
      var n := |steps| - 1;
      var s := Run(Start(now), cap, window, steps[..n]).broker;
      Written(now, cap, window, steps[..n], c) + if WrittenIn(s, steps[n], c) then 1 else 0
  }

  /** Channels not made yet hold nothing. */
  predicate Unmade(s: State) {
    (forall c :: c in s.buffers ==> c < s.next) && forall d, c :: d in s.subs && c in s.subs[d] ==> c in s.buffers
  }

  /** What a step hands to the channel. */
  function HandedIn(s: State, step: Step, c: Chan): seq<Message> {
    if step.Notify? && c in Streams(s, step.device) && Room(s, c) then [step.msg] else []
  }

  predicate WrittenIn(s: State, step: Step, c: Chan) {
    step == Read(c) && c in s.buffers && s.buffers[c] != []
  }

  /** A step appends what it hands to the channel, or takes the oldest message off. */
  lemma BufferStep(w: World, cap: nat, window: nat, step: Step, c: Chan)
    requires Unmade(w.broker)
    ensures var s, s' := w.broker, Apply(w, cap, window, step).broker;
            && (c in s.buffers ==>
                  && c in s'.buffers
                  && s'.buffers[c] == (if WrittenIn(s, step, c) then s.buffers[c][1..] else s.buffers[c])
                                      + HandedIn(s, step, c))
            && (c !in s.buffers ==> HandedIn(s, step, c) == [] && (c in s'.buffers ==> s'.buffers[c] == []))
  {
  }

  /** In every run a stream writes out what it was handed, in that order and each once: its buffer is what is left. */
  lemma {:induction false} StreamsAreFifo(now: nat, cap: nat, window: nat, steps: seq<Step>, c: Chan)
    ensures var s := Run(Start(now), cap, window, steps).broker;
            var handed, written := Handed(now, cap, window, steps, c), Written(now, cap, window, steps, c);
            && Unmade(s) && written <= |handed|
            && (if c in s.buffers then s.buffers[c] == handed[written..] else handed == [])
  {
    if steps != [] {
      var n := |steps| - 1;
      StreamsAreFifo(now, cap, window, steps[..n], c);
      var w := Run(Start(now), cap, window, steps[..n]);
      UnmadeStep(w, cap, window, steps[n]);
      BufferStep(w, cap, window, steps[n], c);
    }
  }

  lemma UnmadeStep(w: World, cap: nat, window: nat, step: Step)
    requires Unmade(w.broker)
    ensures Unmade(Apply(w, cap, window, step).broker)
  {
    match step
    case Close(d, c) =>
      forall x | x in Without(Streams(w.broker, d), c) ensures x in w.broker.buffers {
        WithoutMembers(Streams(w.broker, d), c);
      }
    case _ =>
  }
}

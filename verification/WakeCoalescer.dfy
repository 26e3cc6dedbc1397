/**
 The push-wake coalescer (internal/api/wakecoalesce.go) and its runs with late
 timers, flush and eviction. Time is a number; the zero time is 0. A timer may
 fire at any instant from its due time on, which also covers the gap between
 releasing the lock and arming it.
 */
module WakeCoalescer {
  /** Device ids, numbered. */
  type Device = nat

  datatype Window = Window(nextAllowed: nat, pending: bool)

  const FRESH := Window(0, false)

  // ---------------------------------------------------------------------
  // The decisions, per device
  // ---------------------------------------------------------------------

  datatype Decision = SendNow | RideAlong | Arm(delay: nat)

  function Decide(w: Window, now: nat): Decision {
    if now >= w.nextAllowed then SendNow
    else if w.pending then RideAlong
    else Arm(w.nextAllowed - now)
  }

  function AfterWake(w: Window, now: nat, window: nat): Window {
    match Decide(w, now)
    case SendNow => w.(nextAllowed := now + window)
    case RideAlong => w
    case Arm(_) => w.(pending := true)
  }

  function EntryOf(devices: map<Device, Window>, d: Device): Window {
    if d in devices then devices[d] else FRESH
  }

  predicate PendingAt(devices: map<Device, Window>, d: Device) {
    d in devices && devices[d].pending
  }

  predicate Idle(w: Window, now: nat) {
    !w.pending && now > w.nextAllowed
  }

  class Coalescer {
    const window: nat
    var devices: map<Device, Window>

    constructor (window: nat)
      ensures this.window == window && devices == map[]
    {
      this.window := window;
      devices := map[];
    }

    method Wake(d: Device, now: nat) returns (decision: Decision)
      modifies this
      ensures window == 0 ==> decision == SendNow && devices == old(devices)
      ensures window > 0 ==>
                && decision == Decide(EntryOf(old(devices), d), now)
                && devices == old(devices)[d := AfterWake(EntryOf(old(devices), d), now, window)]
    {
      if window == 0 {
        return SendNow;
      }
      var w := FRESH;
      if d in devices {
        w := devices[d];
      }
      if now >= w.nextAllowed {
        devices := devices[d := w.(nextAllowed := now + window)];
        return SendNow;
      }
      if w.pending {
        devices := devices[d := w];
        return RideAlong;
      }
      devices := devices[d := w.(pending := true)];
      return Arm(w.nextAllowed - now);
    }

    method Fire(d: Device, now: nat) returns (send: bool)
      modifies this
      ensures send == PendingAt(old(devices), d)
      ensures devices == if send then old(devices)[d := Window(now + window, false)] else old(devices)
    {
      if d !in devices || !devices[d].pending {
        return false;
      }
      devices := devices[d := Window(now + window, false)];
      return true;
    }

    /** Every armed device exactly once; only the pending flags change. */
    method Flush() returns (due: seq<Device>)
      modifies this
      ensures devices == Unarmed(old(devices))
      ensures forall d :: d in due <==> PendingAt(old(devices), d)
      ensures forall i, j :: 0 <= i < j < |due| ==> due[i] != due[j]
    {
      due := [];
      var rest := devices.Keys;
      while rest != {}
        invariant rest <= old(devices).Keys && devices.Keys == old(devices).Keys
        invariant forall d :: d in rest ==> devices[d] == old(devices)[d]
        invariant forall d :: d in devices && d !in rest ==> devices[d] == old(devices)[d].(pending := false)
        invariant forall d :: d in due <==> PendingAt(old(devices), d) && d !in rest
        invariant forall i, j :: 0 <= i < j < |due| ==> due[i] != due[j]
        decreases |rest|
      {
        var d :| d in rest;
        if devices[d].pending {
          devices := devices[d := devices[d].(pending := false)];
          due := due + [d];
        }
        rest := rest - {d};
      }
    }

    method EvictIdle(now: nat)
      modifies this
      ensures devices == Kept(old(devices), now)
    {
      var rest := devices.Keys;
      while rest != {}
        invariant rest <= devices.Keys <= old(devices).Keys
        invariant forall d :: d in devices ==> devices[d] == old(devices)[d] && (d in rest || !Idle(devices[d], now))
        invariant forall d :: d in old(devices) && d !in devices ==> Idle(old(devices)[d], now)
        decreases |rest|
      {
        var d :| d in rest;
        if Idle(devices[d], now) {
          devices := devices - {d};
        }
        rest := rest - {d};
      }
    }
  }

  function Unarmed(devices: map<Device, Window>): map<Device, Window> {
    map d | d in devices :: devices[d].(pending := false)
  }

  function Kept(devices: map<Device, Window>, now: nat): map<Device, Window> {
    map d | d in devices && !Idle(devices[d], now) :: devices[d]
  }

  // ---------------------------------------------------------------------
  // Runs
  // ---------------------------------------------------------------------

  /** timers: due times of outstanding timers; sends: when each device was sent to. */
  datatype World = World(
    devices: map<Device, Window>, timers: map<Device, seq<nat>>, sends: map<Device, seq<nat>>, now: nat)

  datatype Step =
    | Wake(device: Device)
    | Fire(device: Device, index: nat)
    | Flush
    | Evict
    | Advance(ticks: nat)

  function Times(m: map<Device, seq<nat>>, d: Device): seq<nat> {
    if d in m then m[d] else []
  }

  function Sent(w: World, d: Device): World {
    w.(sends := w.sends[d := Times(w.sends, d) + [w.now]])
  }

  function Woken(w: World, window: nat, d: Device): World {
    if window == 0 then Sent(w, d)
    else
      var entry := EntryOf(w.devices, d);
      var w' := w.(devices := w.devices[d := AfterWake(entry, w.now, window)]);
      match Decide(entry, w.now)
      case SendNow => Sent(w', d)
      case RideAlong => w'
      case Arm(delay) => w'.(timers := w.timers[d := Times(w.timers, d) + [w.now + delay]])
  }

  function Fired(w: World, window: nat, d: Device, i: nat): World {
    var timers := Times(w.timers, d);
    if i >= |timers| || timers[i] > w.now then w
    else
      var w' := w.(timers := w.timers[d := timers[..i] + timers[i + 1..]]);
      if PendingAt(w.devices, d) then Sent(w'.(devices := w.devices[d := Window(w.now + window, false)]), d) else w'
  }

  function Flushed(w: World): World {
    var sends := map d | d in w.sends.Keys + w.devices.Keys ::
      if PendingAt(w.devices, d) then Times(w.sends, d) + [w.now] else Times(w.sends, d);
    w.(devices := Unarmed(w.devices), sends := sends)
  }

  function Apply(w: World, window: nat, step: Step): World {
    match step
    case Wake(d) => Woken(w, window, d)
    case Fire(d, i) => Fired(w, window, d, i)
    case Flush => Flushed(w)
    case Evict => w.(devices := Kept(w.devices, w.now))
    case Advance(ticks) => w.(now := w.now + ticks)
  }

  function Start(now: nat): World {
    World(map[], map[], map[], now)
  }

  function Run(w: World, window: nat, steps: seq<Step>): World {
    if steps == [] then w else Apply(Run(w, window, steps[..|steps| - 1]), window, steps[|steps| - 1])
  }

  // ---------------------------------------------------------------------
  // No wake is lost
  // ---------------------------------------------------------------------

  /** Whoever has a trailing wake coming has a timer for it. */
  ghost predicate Armed(w: World) {
    forall d :: PendingAt(w.devices, d) ==> Times(w.timers, d) != []
  }

  lemma StepKeepsArmed(w: World, window: nat, step: Step)
    requires Armed(w)
    ensures Armed(Apply(w, window, step))
  {
    var w' := Apply(w, window, step);
    forall d | PendingAt(w'.devices, d) ensures Times(w'.timers, d) != [] {
      if PendingAt(w.devices, d) {
        assert Times(w.timers, d) != [];
      }
    }
  }

  lemma {:induction false} ArmedAlways(now: nat, window: nat, steps: seq<Step>)
    ensures Armed(Run(Start(now), window, steps))
  {
    if steps != [] {
      ArmedAlways(now, window, steps[..|steps| - 1]);
      StepKeepsArmed(Run(Start(now), window, steps[..|steps| - 1]), window, steps[|steps| - 1]);
    }
  }

  /** A wake sends at once, or leaves the device pending with a timer that will send when it fires. */
  lemma EveryWakeSendsOrIsArmed(now: nat, window: nat, steps: seq<Step>, d: Device, i: nat)
    ensures var w := Run(Start(now), window, steps);
            var w' := Apply(w, window, Wake(d));
            || Times(w'.sends, d) == Times(w.sends, d) + [w.now]
            || (PendingAt(w'.devices, d) && Times(w'.timers, d) != [])
    ensures var w := Run(Start(now), window, steps);
            PendingAt(w.devices, d) && i < |Times(w.timers, d)| && Times(w.timers, d)[i] <= w.now ==>
              Times(Apply(w, window, Fire(d, i)).sends, d) == Times(w.sends, d) + [w.now]
  {
    ArmedAlways(now, window, steps);
    ArmedAlways(now, window, steps + [Wake(d)]);
    assert (steps + [Wake(d)])[..|steps|] == steps;
  }

  /** A flush sends to exactly the pending devices, once, and leaves none pending: another one would send nothing, and
      neither does a timer that fires after it. */
  lemma FlushSendsExactly(w: World, window: nat, d: Device, i: nat)
    ensures var flushed := Apply(w, window, Flush);
            && Times(flushed.sends, d) == Times(w.sends, d) + (if PendingAt(w.devices, d) then [w.now] else [])
            && !PendingAt(flushed.devices, d) && flushed.timers == w.timers
            && Times(Apply(flushed, window, Flush).sends, d) == Times(flushed.sends, d)
            && Times(Apply(flushed, window, Fire(d, i)).sends, d) == Times(flushed.sends, d)
  {
  }

  /** After an eviction exactly the devices are kept that are pending or whose window is not over. */
  lemma EvictKeepsExactly(w: World, window: nat, d: Device)
    ensures var devices := Apply(w, window, Evict).devices;
            && (d in devices <==> d in w.devices && (w.devices[d].pending || w.now <= w.devices[d].nextAllowed))
            && (d in devices ==> devices[d] == w.devices[d])
  {
  }

  /** With a window of zero every wake is sent at once, in every run, and nothing is kept. */
  lemma {:induction false} ZeroWindowKeepsNothing(now: nat, steps: seq<Step>, d: Device)
    ensures var w := Run(Start(now), 0, steps);
            && w.devices == map[] && w.timers == map[]
            && Times(Apply(w, 0, Wake(d)).sends, d) == Times(w.sends, d) + [w.now]
  {
    if steps != [] {
      ZeroWindowKeepsNothing(now, steps[..|steps| - 1], d);
    }
  }

  /** A pending wake stays pending, timer outstanding, until the device has been sent to. */
  lemma {:induction false} PendingEndsOnlyInASend(w: World, window: nat, steps: seq<Step>, d: Device)
    requires Armed(w) && PendingAt(w.devices, d)
    ensures var w' := Run(w, window, steps);
            && Armed(w') && Times(w.sends, d) <= Times(w'.sends, d)
            && (|Times(w'.sends, d)| > |Times(w.sends, d)| || PendingAt(w'.devices, d))
  {
    if steps != [] {
      var before := Run(w, window, steps[..|steps| - 1]);
      PendingEndsOnlyInASend(w, window, steps[..|steps| - 1], d);
      StepKeepsArmed(before, window, steps[|steps| - 1]);
      StepSends(before, window, steps[|steps| - 1], d);
    }
  }

  lemma StepSends(w: World, window: nat, step: Step, d: Device)
    ensures var w' := Apply(w, window, step);
            && Times(w.sends, d) <= Times(w'.sends, d)
            && (PendingAt(w.devices, d) && !PendingAt(w'.devices, d) ==> |Times(w'.sends, d)| > |Times(w.sends, d)|)
  {
  }

  // ---------------------------------------------------------------------
  // Bounded rate
  // ---------------------------------------------------------------------

  predicate NoFlush(steps: seq<Step>) {
    forall i :: 0 <= i < |steps| ==> !steps[i].Flush?
  }

  function Last(s: seq<nat>): nat
    requires s != []
  {
    s[|s| - 1]
  }

  /** Sends k apart in the sequence are at least gap apart in time. */
  predicate Spaced(sends: seq<nat>, k: nat, gap: nat) {
    forall i :: 0 <= i && i + k < |sends| ==> sends[i + k] >= sends[i] + gap
  }

  lemma SpacedPush(sends: seq<nat>, k: nat, gap: nat, t: nat)
    requires Spaced(sends, k, gap) && 1 <= k && (k <= |sends| ==> t >= sends[|sends| - k] + gap)
    ensures Spaced(sends + [t], k, gap)
  {
  }

  /** Without flush: entries remember the last send, and at most one timer per device is outstanding. */
  ghost predicate RateInv(w: World, window: nat, d: Device) {
    var sends, timers := Times(w.sends, d), Times(w.timers, d);
    && (sends != [] ==> Last(sends) <= w.now)
    && (d in w.devices ==> sends != [] && w.devices[d].nextAllowed == Last(sends) + window)
    && (d !in w.devices && sends != [] ==> w.now > Last(sends) + window)
    && |timers| == (if PendingAt(w.devices, d) then 1 else 0)
    && (timers != [] ==>
          timers[0] == Last(sends) + window || (|sends| >= 2 && Last(sends) >= sends[|sends| - 2] + window))
    && Spaced(sends, 1, 0) && Spaced(sends, 2, window)
  }

  /** No timer is so late that a wake overtakes it: none arrives while one is overdue. */
  predicate Punctual(w: World, step: Step) {
    step.Wake? && PendingAt(w.devices, step.device) ==> w.now < w.devices[step.device].nextAllowed
  }

  ghost predicate PairInv(w: World, window: nat, d: Device) {
    var sends, timers := Times(w.sends, d), Times(w.timers, d);
    && RateInv(w, window, d)
    && (timers != [] ==> timers[0] == Last(sends) + window)
    && Spaced(sends, 1, window)
  }

  /** What a step does to another device's slice: nothing, except that it may be evicted when idle. */
  lemma OtherDevice(w: World, window: nat, step: Step, d: Device)
    requires !step.Flush? && !(step.Wake? && step.device == d) && !(step.Fire? && step.device == d)
    ensures var w' := Apply(w, window, step);
            && Times(w'.sends, d) == Times(w.sends, d) && Times(w'.timers, d) == Times(w.timers, d) && w'.now >= w.now
            && (d in w'.devices ==> d in w.devices && w'.devices[d] == w.devices[d])
            && (d in w.devices && d !in w'.devices ==> Idle(w.devices[d], w.now))
  {
  }

  lemma WakeSends(w: World, window: nat, d: Device)
    requires window > 0 && RateInv(w, window, d) && Decide(EntryOf(w.devices, d), w.now).SendNow?
    ensures RateInv(Apply(w, window, Wake(d)), window, d)
    ensures PairInv(w, window, d) && Punctual(w, Wake(d)) ==> PairInv(Apply(w, window, Wake(d)), window, d)
  {
    var w' := Woken(w, window, d);
    var sends := Times(w.sends, d);
    assert Times(w'.sends, d) == sends + [w.now] && Times(w'.timers, d) == Times(w.timers, d);
    assert sends != [] ==> w.now >= Last(sends) + window;
    SpacedPush(sends, 1, 0, w.now);
    SpacedPush(sends, 2, window, w.now);
    if Spaced(sends, 1, window) {
      SpacedPush(sends, 1, window, w.now);
    }
  }

  lemma WakeWaits(w: World, window: nat, d: Device)
    requires window > 0 && RateInv(w, window, d) && !Decide(EntryOf(w.devices, d), w.now).SendNow?
    ensures RateInv(Apply(w, window, Wake(d)), window, d)
    ensures PairInv(w, window, d) ==> PairInv(Apply(w, window, Wake(d)), window, d)
  {
    var w' := Woken(w, window, d);
    assert Times(w'.sends, d) == Times(w.sends, d);
    if !PendingAt(w.devices, d) {
      assert Times(w'.timers, d) == [Last(Times(w.sends, d)) + window];
    }
  }

  lemma WakeKeepsRate(w: World, window: nat, d: Device)
    requires window > 0 && RateInv(w, window, d)
    ensures RateInv(Apply(w, window, Wake(d)), window, d)
    ensures PairInv(w, window, d) && Punctual(w, Wake(d)) ==> PairInv(Apply(w, window, Wake(d)), window, d)
  {
    if Decide(EntryOf(w.devices, d), w.now).SendNow? {
      WakeSends(w, window, d);
    } else {
      WakeWaits(w, window, d);
    }
  }

  lemma FireKeepsRate(w: World, window: nat, d: Device, i: nat)
    requires window > 0 && RateInv(w, window, d)
    ensures RateInv(Apply(w, window, Fire(d, i)), window, d)
    ensures PairInv(w, window, d) ==> PairInv(Apply(w, window, Fire(d, i)), window, d)
  {
    var timers := Times(w.timers, d);
    if i < |timers| && timers[i] <= w.now {
      var w' := Fired(w, window, d, i);
      assert Times(w'.timers, d) == [];
      var sends := Times(w.sends, d);
      assert Times(w'.sends, d) == sends + [w.now];
      SpacedPush(sends, 1, 0, w.now);
      SpacedPush(sends, 2, window, w.now);
      if PairInv(w, window, d) {
        SpacedPush(sends, 1, window, w.now);
      }
    }
  }

  lemma StepKeepsRate(w: World, window: nat, step: Step, d: Device)
    requires window > 0 && !step.Flush? && RateInv(w, window, d)
    ensures RateInv(Apply(w, window, step), window, d)
    ensures PairInv(w, window, d) && Punctual(w, step) ==> PairInv(Apply(w, window, step), window, d)
  {
    if step.Wake? && step.device == d {
      WakeKeepsRate(w, window, d);
    } else if step.Fire? && step.device == d {
      FireKeepsRate(w, window, d, step.index);
    } else {
      OtherDevice(w, window, step, d);
    }
  }

  /** Any three consecutive sends to a device span at least one window. */
  lemma {:induction false} ThreeSendsSpanAWindow(now: nat, window: nat, steps: seq<Step>, d: Device)
    requires window > 0 && NoFlush(steps)
    ensures RateInv(Run(Start(now), window, steps), window, d)
    ensures var sends := Times(Run(Start(now), window, steps).sends, d);
            forall i :: 0 <= i && i + 2 < |sends| ==> sends[i + 2] >= sends[i] + window
  {
    if steps != [] {
      var n := |steps| - 1;
      ThreeSendsSpanAWindow(now, window, steps[..n], d);
      StepKeepsRate(Run(Start(now), window, steps[..n]), window, steps[n], d);
    }
  }

  /** No wake of the run to d overtakes an overdue timer of d. */
  ghost predicate AllPunctual(now: nat, window: nat, steps: seq<Step>, d: Device) {
    forall i :: 0 <= i < |steps| && steps[i] == Wake(d) ==> Punctual(Run(Start(now), window, steps[..i]), steps[i])
  }

  /** And any two do, as long as no wake of the device overtakes its overdue timer. */
  lemma {:induction false} TwoSendsSpanAWindow(now: nat, window: nat, steps: seq<Step>, d: Device)
    requires window > 0 && NoFlush(steps) && AllPunctual(now, window, steps, d)
    ensures PairInv(Run(Start(now), window, steps), window, d)
    ensures var sends := Times(Run(Start(now), window, steps).sends, d);
            forall i :: 0 <= i && i + 1 < |sends| ==> sends[i + 1] >= sends[i] + window
  {
    if steps != [] {
      var n := |steps| - 1;
      forall i | 0 <= i < n && steps[..n][i] == Wake(d)
        ensures Punctual(Run(Start(now), window, steps[..n][..i]), steps[..n][i])
      {
        assert steps[..n][..i] == steps[..i];
      }
      TwoSendsSpanAWindow(now, window, steps[..n], d);
      StepKeepsRate(Run(Start(now), window, steps[..n]), window, steps[n], d);
    }
  }

  // ---------------------------------------------------------------------
  // When two sends come closer than a window
  // ---------------------------------------------------------------------

  predicate SendsTo(w: World, window: nat, step: Step, d: Device) {
    Times(Apply(w, window, step).sends, d) != Times(w.sends, d)
  }

  /** A wake that sends while a timer of the device is still outstanding. */
  predicate Overtakes(w: World, step: Step, d: Device) {
    step == Wake(d) && !Punctual(w, step)
  }

  /** An outstanding timer is due a window after the last send. */
  ghost predicate Calm(w: World, window: nat, d: Device) {
    var sends, timers := Times(w.sends, d), Times(w.timers, d);
    RateInv(w, window, d) && (timers != [] ==> timers[0] == Last(sends) + window)
  }

  /** A send leaves calm behind, unless it overtook a timer. */
  lemma SendCalms(w: World, window: nat, step: Step, d: Device)
    requires window > 0 && !step.Flush? && RateInv(w, window, d) && SendsTo(w, window, step, d)
    ensures var w' := Apply(w, window, step);
            && RateInv(w', window, d) && Times(w'.sends, d) == Times(w.sends, d) + [w.now]
            && (!Overtakes(w, step, d) ==> Calm(w', window, d))
  {
    StepKeepsRate(w, window, step, d);
    if !(step.Wake? && step.device == d) && !(step.Fire? && step.device == d) {
      OtherDevice(w, window, step, d);
    }
  }

  lemma QuietKeepsCalm(w: World, window: nat, step: Step, d: Device)
    requires window > 0 && !step.Flush? && RateInv(w, window, d) && !SendsTo(w, window, step, d)
    ensures RateInv(Apply(w, window, step), window, d)
            && (Calm(w, window, d) ==> Calm(Apply(w, window, step), window, d))
  {
    StepKeepsRate(w, window, step, d);
    if !(step.Wake? && step.device == d) && !(step.Fire? && step.device == d) {
      OtherDevice(w, window, step, d);
    }
  }

  /** A send comes a window after the last one, unless it is a timer firing before nextAllowed, which calm rules out. */
  lemma SendSpacing(w: World, window: nat, step: Step, d: Device)
    requires window > 0 && !step.Flush? && RateInv(w, window, d) && Times(w.sends, d) != []
             && SendsTo(w, window, step, d)
    ensures w.now < Last(Times(w.sends, d)) + window <==> step.Fire? && w.now < EntryOf(w.devices, d).nextAllowed
    ensures Calm(w, window, d) ==> w.now >= Last(Times(w.sends, d)) + window
  {
    if !(step.Wake? && step.device == d) && !(step.Fire? && step.device == d) {
      OtherDevice(w, window, step, d);
    }
  }

  /** The device was last sent to at t, and all is calm since unless that send overtook a timer. */
  ghost predicate Since(w: World, window: nat, d: Device, t: nat, overtook: bool) {
    var sends := Times(w.sends, d);
    RateInv(w, window, d) && sends != [] && Last(sends) == t && (overtook || Calm(w, window, d))
  }

  lemma SinceNow(w: World, window: nat, step: Step, d: Device)
    requires window > 0 && !step.Flush? && RateInv(w, window, d) && SendsTo(w, window, step, d)
    ensures Since(Apply(w, window, step), window, d, w.now, Overtakes(w, step, d))
  {
    SendCalms(w, window, step, d);
  }

  lemma SinceQuiet(w: World, window: nat, step: Step, d: Device, t: nat, overtook: bool)
    requires window > 0 && !step.Flush? && Since(w, window, d, t, overtook) && !SendsTo(w, window, step, d)
    ensures Since(Apply(w, window, step), window, d, t, overtook)
  {
    QuietKeepsCalm(w, window, step, d);
  }

  /** No step of the run from w sends to the device. */
  predicate Silent(w: World, window: nat, steps: seq<Step>, d: Device) {
    steps == [] ||
    var n := |steps| - 1;
    Silent(w, window, steps[..n], d) && !SendsTo(Run(w, window, steps[..n]), window, steps[n], d)
  }

  lemma {:induction false} SinceStill(w: World, window: nat, steps: seq<Step>, d: Device, t: nat, overtook: bool)
    requires window > 0 && NoFlush(steps) && Silent(w, window, steps, d) && Since(w, window, d, t, overtook)
    ensures Since(Run(w, window, steps), window, d, t, overtook)
  {
    if steps != [] {
      var n := |steps| - 1;
      SinceStill(w, window, steps[..n], d, t, overtook);
      SinceQuiet(Run(w, window, steps[..n]), window, steps[n], d, t, overtook);
    }
  }

  lemma {:induction false} RunConcat(w: World, window: nat, front: seq<Step>, back: seq<Step>)
    ensures Run(w, window, front + back) == Run(Run(w, window, front), window, back)
  {
    if back == [] {
      assert front + back == front;
    } else {
      var n := |back| - 1;
      RunConcat(w, window, front, back[..n]);
      assert (front + back)[..|front| + n] == front + back[..n] && (front + back)[|front| + n] == back[n];
      RunLast(w, window, front + back);
      RunLast(Run(w, window, front), window, back);
    }
  }

  lemma RunLast(w: World, window: nat, steps: seq<Step>)
    requires steps != []
    ensures Run(w, window, steps) == Apply(Run(w, window, steps[..|steps| - 1]), window, steps[|steps| - 1])
  {
  }

  lemma RunOne(w: World, window: nat, step: Step)
    ensures Run(w, window, [step]) == Apply(w, window, step)
  {
    assert [step][..0] == [];
  }

  /**
   In every run without flush, two consecutive sends to a device come closer than a
   window exactly when the first is a wake that overtook the device's timer and the
   second is that timer firing before the nextAllowed the wake set. The run is front,
   the first sending step, steps that do not send to the device, the second one.
   */
  lemma CloseSendsExactly(now: nat, window: nat, front: seq<Step>, a: Step, middle: seq<Step>, b: Step, d: Device)
    requires window > 0 && NoFlush(front) && NoFlush(middle) && !a.Flush? && !b.Flush?
    requires var first := Run(Start(now), window, front);
             var second := Run(Start(now), window, front + [a] + middle);
             SendsTo(first, window, a, d) && SendsTo(second, window, b, d)
               && Silent(Run(Start(now), window, front + [a]), window, middle, d)
    ensures var first := Run(Start(now), window, front);
            var second := Run(Start(now), window, front + [a] + middle);
            second.now < first.now + window <==>
              Overtakes(first, a, d) && b.Fire? && second.now < EntryOf(second.devices, d).nextAllowed
  {
    var first := Run(Start(now), window, front);
    var after := Apply(first, window, a);
    RunConcat(Start(now), window, front, [a]);
    RunOne(first, window, a);
    RunConcat(Start(now), window, front + [a], middle);
    ThreeSendsSpanAWindow(now, window, front, d);
    SinceNow(first, window, a, d);
    SinceStill(after, window, middle, d, first.now, Overtakes(first, a, d));
    SendSpacing(Run(after, window, middle), window, b, d);
  }

  /** Such a run: a leading send, a wake that arms a timer, a wake that overtakes it, and the timer firing t later. */
  lemma OvertakenTimerSendsTwice(now: nat, window: nat, t: nat, d: Device)
    requires window > 0
    ensures var steps := [Wake(d), Wake(d), Advance(window)] + [Wake(d), Advance(t), Fire(d, 0)];
            Times(Run(Start(now), window, steps).sends, d) == [now, now + window, now + window + t]
  {
    var front, back := [Wake(d), Wake(d), Advance(window)], [Wake(d), Advance(t), Fire(d, 0)];
    RunConcat(Start(now), window, front, back);
    RunThree(Start(now), window, front);
    LeadingWake(now, window, d);
    ArmingWake(now, window, d);
    var w := World(map[d := Window(now + window, true)], map[d := [now + window]], map[d := [now]], now + window);
    assert Run(Start(now), window, front) == w;
    RunThree(w, window, back);
    OvertakingWake(w, window, t, d);
  }

  lemma RunThree(w: World, window: nat, steps: seq<Step>)
    requires |steps| == 3
    ensures Run(w, window, steps) == Apply(Apply(Apply(w, window, steps[0]), window, steps[1]), window, steps[2])
  {
    RunNext(w, window, steps, 0);
    RunNext(w, window, steps, 1);
    RunNext(w, window, steps, 2);
    assert steps[..3] == steps;
  }

  lemma RunNext(w: World, window: nat, steps: seq<Step>, k: nat)
    requires k < |steps|
    ensures Run(w, window, steps[..k + 1]) == Apply(Run(w, window, steps[..k]), window, steps[k])
  {
    assert steps[..k + 1][..k] == steps[..k];
  }

  lemma OvertakingWake(w: World, window: nat, t: nat, d: Device)
    requires window > 0 && d in w.devices && w.devices[d] == Window(w.now, true) && Times(w.timers, d) == [w.now]
    ensures Times(Apply(Apply(Apply(w, window, Wake(d)), window, Advance(t)), window, Fire(d, 0)).sends, d)
         == Times(w.sends, d) + [w.now, w.now + t]
  {
    var woken := Apply(w, window, Wake(d));
    assert Decide(w.devices[d], w.now) == SendNow;
    assert woken.devices[d] == Window(w.now + window, true) && Times(woken.timers, d) == [w.now]
      && Times(woken.sends, d) == Times(w.sends, d) + [w.now];
    var late := Apply(woken, window, Advance(t));
    assert Times(Fired(late, window, d, 0).sends, d) == Times(woken.sends, d) + [w.now + t];
    assert (Times(w.sends, d) + [w.now]) + [w.now + t] == Times(w.sends, d) + [w.now, w.now + t];
  }

  lemma LeadingWake(now: nat, window: nat, d: Device)
    requires window > 0
    ensures Apply(Start(now), window, Wake(d)) ==
            World(map[d := Window(now + window, false)], map[], map[d := [now]], now)
  {
    var w := Start(now);
    assert Decide(EntryOf(w.devices, d), now) == SendNow
      && AfterWake(EntryOf(w.devices, d), now, window) == Window(now + window, false);
    assert w.devices[d := Window(now + window, false)] == map[d := Window(now + window, false)];
    assert Times(w.sends, d) + [now] == [now] && w.sends[d := [now]] == map[d := [now]];
  }

  lemma ArmingWake(now: nat, window: nat, d: Device)
    requires window > 0
    ensures Apply(World(map[d := Window(now + window, false)], map[], map[d := [now]], now), window, Wake(d))
         == World(map[d := Window(now + window, true)], map[d := [now + window]], map[d := [now]], now)
  {
    var w := World(map[d := Window(now + window, false)], map[], map[d := [now]], now);
    assert Decide(EntryOf(w.devices, d), now) == Arm(window)
      && AfterWake(EntryOf(w.devices, d), now, window) == Window(now + window, true);
    assert Times(w.timers, d) + [now + window] == [now + window];
    assert w.devices[d := Window(now + window, true)] == map[d := Window(now + window, true)];
  }

  // ---------------------------------------------------------------------
  // Eviction is unobservable
  // ---------------------------------------------------------------------

  function WithoutEvict(steps: seq<Step>): seq<Step> {
    if steps == [] then []
    else
      var n := |steps| - 1;
      WithoutEvict(steps[..n]) + (if steps[n].Evict? then [] else [steps[n]])
  }

  /** Equal except that the evicting world may have dropped idle entries. */
  ghost predicate Same(e: World, w: World) {
    && e.timers == w.timers && e.sends == w.sends && e.now == w.now
    && e.devices.Keys <= w.devices.Keys
    && (forall d :: d in e.devices ==> e.devices[d] == w.devices[d])
    && (forall d :: d in w.devices && d !in e.devices ==> Idle(w.devices[d], w.now) && d in w.sends)
  }

  ghost predicate SentToAll(w: World) {
    forall d :: d in w.devices ==> d in w.sends
  }

  lemma SameWake(e: World, w: World, window: nat, d: Device)
    requires Same(e, w) && SentToAll(w)
    ensures Same(Woken(e, window, d), Woken(w, window, d)) && SentToAll(Woken(w, window, d))
  {
  }

  lemma SameFire(e: World, w: World, window: nat, d: Device, i: nat)
    requires Same(e, w) && SentToAll(w)
    ensures Same(Fired(e, window, d, i), Fired(w, window, d, i)) && SentToAll(Fired(w, window, d, i))
  {
  }

  lemma SameFlush(e: World, w: World)
    requires Same(e, w) && SentToAll(w)
    ensures Same(Flushed(e), Flushed(w)) && SentToAll(Flushed(w))
  {
    assert e.sends.Keys + e.devices.Keys == w.sends.Keys + w.devices.Keys;
    forall d | d in w.devices ensures PendingAt(e.devices, d) == PendingAt(w.devices, d) {
    }
    assert Flushed(e).sends == Flushed(w).sends;
  }

  lemma SameStep(e: World, w: World, window: nat, step: Step)
    requires Same(e, w) && SentToAll(w) && !step.Evict?
    ensures Same(Apply(e, window, step), Apply(w, window, step)) && SentToAll(Apply(w, window, step))
  {
    match step
    case Wake(d) => SameWake(e, w, window, d);
    case Fire(d, i) => SameFire(e, w, window, d, i);
    case Flush => SameFlush(e, w);
    case Advance(_) =>
  }

  lemma SameEvict(e: World, w: World, window: nat)
    requires Same(e, w) && SentToAll(w)
    ensures Same(Apply(e, window, Evict), w)
  {
  }

  /** Runs with and without evictIdle send the same wakes at the same times. */
  lemma {:induction false} EvictionIsUnobservable(now: nat, window: nat, steps: seq<Step>)
    ensures var e, w := Run(Start(now), window, steps), Run(Start(now), window, WithoutEvict(steps));
            Same(e, w) && SentToAll(w) && e.sends == w.sends
  {
    if steps != [] {
      var n := |steps| - 1;
      EvictionIsUnobservable(now, window, steps[..n]);
      var e, w := Run(Start(now), window, steps[..n]), Run(Start(now), window, WithoutEvict(steps[..n]));
      if steps[n].Evict? {
        SameEvict(e, w, window);
        assert WithoutEvict(steps) == WithoutEvict(steps[..n]);
      } else {
        SameStep(e, w, window, steps[n]);
        assert WithoutEvict(steps)[..|WithoutEvict(steps)| - 1] == WithoutEvict(steps[..n]);
      }
    }
  }
}

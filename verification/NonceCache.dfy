/**
 Replay protection: the sharded in-memory cache behind signed requests
 (internal/auth/nonce_cache.go, internal/auth/middleware.go) and the persistent
 table behind recovery and federation (internal/store/nonces.go).

 Instants and durations are nanoseconds. A run interleaves requests, purges and
 a clock that never goes back.
 */
module NonceCache {
  import opened Collections
  import opened Rfc3339
  import Gf2

  type Time = int

  const SECOND: int := 1_000_000_000
  const SKEW: int := 300 * SECOND
  const SHARDS := 256
  const MIN64: int := -0x8000_0000_0000_0000
  const MAX64: int := 0x7fff_ffff_ffff_ffff

  type Shards = seq<map<Bytes, Time>>

  // ---------------------------------------------------------------------
  // The skew check
  // ---------------------------------------------------------------------

  /** time.Time.Sub, which saturates at the ends of an int64. */
  function Sub(t: Time, u: Time): int {
    if t - u < MIN64 then MIN64 else if t - u > MAX64 then MAX64 else t - u
  }

  /** -d on an int64: the least value is its own negation. */
  function Negate(d: int): int {
    if d == MIN64 then MIN64 else -d
  }

  predicate WithinSkew(ts: Time, now: Time) {
    var diff := Sub(now, ts);
    (if diff < 0 then Negate(diff) else diff) <= SKEW
  }

  /** The check is the distance on every timestamp less than 2^63 nanoseconds (292 years) ahead, and passes all later
      ones. */
  lemma WithinSkewExactly(ts: Time, now: Time)
    ensures WithinSkew(ts, now) <==> now - SKEW <= ts <= now + SKEW || ts - now >= -MIN64
    ensures WithinSkew(ts, now) ==> now <= ts + SKEW
  {
  }

  // ---------------------------------------------------------------------
  // Keys and shards
  // ---------------------------------------------------------------------

  const WORD: nat := 0x1_0000_0000

  /** FNV-1a on 32 bits. */
  function Fnv(data: Bytes): (h: nat)
    ensures h < WORD
  {
    if data == [] then 2166136261 else Mix(Fnv(data[..|data| - 1]), data[|data| - 1])
  }

  function Mix(h: nat, b: byte): nat {
    Gf2.Xor(h, b as nat) * 16777619 % WORD
  }

  function ShardOf(device: Bytes): (i: int)
    ensures 0 <= i < SHARDS
  {
    Fnv(device) % SHARDS
  }

  function Key(device: Bytes, nonce: Bytes): Bytes {
    device + [0] + nonce
  }

  predicate NulFree(device: Bytes) {
    0 !in device
  }

  lemma KeyInjective(d: Bytes, n: Bytes, e: Bytes, m: Bytes)
    requires NulFree(d) && NulFree(e)
    ensures Key(d, n) == Key(e, m) <==> d == e && n == m
  {
    var k, l := Key(d, n), Key(e, m);
    assert k[|d|] == 0 && l[|e|] == 0;
    assert forall i :: 0 <= i < |d| ==> k[i] == d[i] != 0;
    assert forall i :: 0 <= i < |e| ==> l[i] == e[i] != 0;
    assert d == k[..|d|] && e == l[..|e|] && n == k[|d| + 1..] && m == l[|e| + 1..];
  }

  // ---------------------------------------------------------------------
  // The cache as a value
  // ---------------------------------------------------------------------

  function Empty(): (s: Shards)
    ensures |s| == SHARDS && forall i :: 0 <= i < SHARDS ==> s[i] == map[]
  {
    seq(SHARDS, i => map[])
  }

  /** No unexpired record of the pair. */
  predicate Unseen(s: Shards, d: Bytes, n: Bytes, now: Time)
    requires |s| == SHARDS
  {
    var seen := s[ShardOf(d)];
    !(Key(d, n) in seen && seen[Key(d, n)] > now)
  }

  function Recorded(s: Shards, d: Bytes, n: Bytes, expiry: Time): Shards
    requires |s| == SHARDS
  {
    s[ShardOf(d) := s[ShardOf(d)][Key(d, n) := expiry]]
  }

  function Live(seen: map<Bytes, Time>, now: Time): map<Bytes, Time> {
    map k | k in seen && seen[k] > now :: seen[k]
  }

  function Purged(s: Shards, now: Time): (r: Shards)
    ensures |r| == |s|
  {
    seq(|s|, i requires 0 <= i < |s| => Live(s[i], now))
  }

  function Size(s: Shards): nat {
    if s == [] then 0 else Size(s[..|s| - 1]) + |s[|s| - 1]|
  }

  lemma SizeNext(s: Shards, i: nat, now: Time)
    requires i < |s|
    ensures Size(s[..i + 1]) == Size(s[..i]) + |s[i]|
    ensures Size(Purged(s[..i + 1], now)) == Size(Purged(s[..i], now)) + |Live(s[i], now)|
  {
    assert s[..i + 1][..i] == s[..i];
    assert Purged(s[..i + 1], now)[..i] == Purged(s[..i], now);
  }

  // ---------------------------------------------------------------------
  // As the source does it
  // ---------------------------------------------------------------------

  method HashDevice(data: Bytes) returns (h: nat)
    ensures h == Fnv(data)
  {
    h := 2166136261;
    for i := 0 to |data|
      invariant h == Fnv(data[..i])
    {
      assert data[..i + 1][..i] == data[..i];
      h := Mix(h, data[i]);
    }
    assert data[..|data|] == data;
  }

  method PurgeShard(seen: map<Bytes, Time>, now: Time) returns (left: map<Bytes, Time>, removed: nat)
    ensures left == Live(seen, now)
    ensures removed + |left| == |seen|
  {
    left, removed := seen, 0;
    var todo := seen.Keys;
    while todo != {}
      invariant todo <= seen.Keys && removed + |left| == |seen|
      invariant left.Keys <= seen.Keys && forall k :: k in left ==> left[k] == seen[k]
      invariant forall k :: k in seen ==> (k in left <==> k in todo || seen[k] > now)
      decreases |todo|
    {
      var k :| k in todo;
      if seen[k] <= now {
        var rest := left - {k};
        assert rest.Keys == left.Keys - {k};
        left, removed := rest, removed + 1;
      }
      todo := todo - {k};
    }
  }

  /** What a request brings, and what the checks around the nonce will say of it. */
  datatype Request = Request(device: Bytes, nonce: Bytes, ts: Time, vouched: bool, active: bool)

  datatype Verdict = OutsideSkew | Unverified | Replayed | AccountInactive | Authenticated

  predicate Passes(s: Shards, now: Time, q: Request)
    requires |s| == SHARDS
  {
    WithinSkew(q.ts, now) && q.vouched && Unseen(s, q.device, q.nonce, now)
  }

  class Cache {
    const shards: array<map<Bytes, Time>>

    ghost predicate Valid()
      reads this
    {
      shards.Length == SHARDS
    }

    constructor ()
      ensures Valid() && fresh(shards) && shards[..] == Empty()
    {
      shards := new map<Bytes, Time>[SHARDS](i => map[]);
    }

    method Record(device: Bytes, nonce: Bytes, now: Time, expiresAt: Time) returns (ok: bool)
      requires Valid()
      modifies shards
      ensures ok == Unseen(old(shards[..]), device, nonce, now)
      ensures shards[..] == if ok then Recorded(old(shards[..]), device, nonce, expiresAt) else old(shards[..])
    {
      var key := device + [0] + nonce;
      var h := HashDevice(device);
      var i := h % SHARDS;
      if key in shards[i] && shards[i][key] > now {
        return false;
      }
      shards[i] := shards[i][key := expiresAt];
      return true;
    }

    method PurgeExpired(now: Time) returns (removed: nat)
      requires Valid()
      modifies shards
      ensures shards[..] == Purged(old(shards[..]), now)
      ensures removed + Size(shards[..]) == Size(old(shards[..]))
    {
      removed := 0;
      ghost var before := shards[..];
      for i := 0 to shards.Length
        invariant forall j :: 0 <= j < i ==> shards[j] == Live(before[j], now)
        invariant forall j :: i <= j < shards.Length ==> shards[j] == before[j]
        invariant removed + Size(Purged(before[..i], now)) == Size(before[..i])
      {
        var n := PurgeAt(i, now);
        removed := removed + n;
        SizeNext(before, i, now);
      }
      assert before[..SHARDS] == before;
    }

    /** One shard under its lock. */
    method PurgeAt(i: nat, now: Time) returns (removed: nat)
      requires Valid() && i < SHARDS
      modifies shards
      ensures shards[i] == Live(old(shards[i]), now) && removed + |shards[i]| == |old(shards[i])|
      ensures forall j :: 0 <= j < SHARDS && j != i ==> shards[j] == old(shards[j])
    {
      var left, n := PurgeShard(shards[i], now);
      shards[i] := left;
      return n;
    }

    /**
     The middleware, from the state the cache is in when the nonce is recorded. The
     clock was read before the body was, so reading may be any earlier instant. A
     request whose account turns out inactive has spent its nonce all the same.
     */
    method Authenticate(q: Request, reading: Time) returns (v: Verdict)
      requires Valid()
      modifies shards
      ensures v.OutsideSkew? <==> !WithinSkew(q.ts, reading)
      ensures v.Authenticated? <==> Passes(old(shards[..]), reading, q) && q.active
      ensures v.Replayed? <==>
                WithinSkew(q.ts, reading) && q.vouched && !Unseen(old(shards[..]), q.device, q.nonce, reading)
      ensures shards[..] == if Passes(old(shards[..]), reading, q)
              then Recorded(old(shards[..]), q.device, q.nonce, q.ts + SKEW) else old(shards[..])
    {
      if !WithinSkew(q.ts, reading) {
        return OutsideSkew;
      }
      if !q.vouched {
        return Unverified;
      }
      var ok := Record(q.device, q.nonce, reading, q.ts + SKEW);
      if !ok {
        return Replayed;
      }
      return if q.active then Authenticated else AccountInactive;
    }
  }

  // ---------------------------------------------------------------------
  // Runs
  // ---------------------------------------------------------------------

  /** A request past the skew check, with the clock reading it was checked at, whose nonce is still to be recorded. */
  datatype Held = Held(request: Request, read: Time)

  /** Took: a nonce was recorded at an instant, for a request checked at an earlier reading. Swept: a purge.
      Restarted: a new process. */
  datatype Event =
    | Took(device: Bytes, nonce: Bytes, ts: Time, read: Time, at: Time)
    | Swept(cutoff: Time)
    | Restarted

  datatype World = World(shards: Shards, now: Time, pending: seq<Held>, log: seq<Event>)

  /** Admit is the skew check, Finish the record of a request admitted earlier; a purge may go by a reading some time
      old. */
  datatype Step = Tick(elapsed: nat) | Admit(request: Request) | Finish(index: nat) | Purge(age: nat) | Restart

  function Without(pending: seq<Held>, i: nat): seq<Held>
    requires i < |pending|
  {
    pending[..i] + pending[i + 1..]
  }

  function TookFor(h: Held, now: Time): Event {
    Took(h.request.device, h.request.nonce, h.request.ts, h.read, now)
  }

  function Apply(w: World, step: Step): World
    requires |w.shards| == SHARDS
  {
    match step
    case Tick(elapsed) => w.(now := w.now + elapsed)
    case Admit(q) => if WithinSkew(q.ts, w.now) then w.(pending := w.pending + [Held(q, w.now)]) else w
    case Purge(age) => w.(shards := Purged(w.shards, w.now - age), log := w.log + [Swept(w.now - age)])
    case Restart => w.(shards := Empty(), pending := [], log := w.log + [Restarted])
    case Finish(i) =>
      if i >= |w.pending| then w
      else
        var h := w.pending[i];
        var rest := Without(w.pending, i);
        if Passes(w.shards, h.read, h.request)
        then World(Recorded(w.shards, h.request.device, h.request.nonce, h.request.ts + SKEW), w.now, rest,
                   w.log + [TookFor(h, w.now)])
        else w.(pending := rest)
  }

  function Run(start: Time, steps: seq<Step>): (w: World)
    ensures |w.shards| == SHARDS
  {
    if steps == [] then World(Empty(), start, [], []) else Apply(Run(start, steps[..|steps| - 1]), steps[|steps| - 1])
  }

  predicate SameSlot(d: Bytes, n: Bytes, e: Bytes, m: Bytes) {
    ShardOf(d) == ShardOf(e) && Key(d, n) == Key(e, m)
  }

  predicate SamePair(e: Event, d: Bytes, n: Bytes) {
    e.Took? && e.device == d && e.nonce == n
  }

  function Expiry(e: Event): Time
    requires e.Took?
  {
    e.ts + SKEW
  }

  /** A purge that has reached an expiry, or a restart. */
  predicate Clears(e: Event, expiry: Time) {
    e.Restarted? || (e.Swept? && e.cutoff >= expiry)
  }

  /** A purge since has reached the expiry of entry i, or the process has been restarted. */
  predicate Gone(log: seq<Event>, i: nat)
    requires i < |log| && log[i].Took?
  {
    exists k :: i < k < |log| && Clears(log[k], Expiry(log[i]))
  }

  /** Entry i takes the slot of a request read at this instant. */
  predicate Blocks(log: seq<Event>, i: nat, d: Bytes, n: Bytes, read: Time)
    requires i < |log|
  {
    log[i].Took? && SameSlot(log[i].device, log[i].nonce, d, n) && Expiry(log[i]) > read && !Gone(log, i)
  }

  lemma GoneNext(log: seq<Event>, e: Event, i: nat)
    requires i < |log| && log[i].Took?
    ensures Gone(log + [e], i) <==> Gone(log, i) || Clears(e, Expiry(log[i]))
  {
    var log' := log + [e];
    assert log'[|log|] == e;
    if Gone(log, i) {
      var k :| i < k < |log| && Clears(log[k], Expiry(log[i]));
      assert log'[k] == log[k];
    }
  }

  /** The slot of the entry is in use, for at least as long as the entry lasts. */
  predicate Covered(s: Shards, e: Event)
    requires |s| == SHARDS && e.Took?
  {
    var seen := s[ShardOf(e.device)];
    Key(e.device, e.nonce) in seen && seen[Key(e.device, e.nonce)] >= Expiry(e)
  }

  predicate Explains(e: Event, i: int, k: Bytes, expiry: Time) {
    e.Took? && ShardOf(e.device) == i && Key(e.device, e.nonce) == k && Expiry(e) == expiry
  }

  predicate Explained(log: seq<Event>, i: int, k: Bytes, expiry: Time) {
    exists j :: 0 <= j < |log| && Explains(log[j], i, k, expiry) && !Gone(log, j)
  }

  ghost predicate Timely(w: World) {
    && (forall p :: 0 <= p < |w.pending| ==>
       w.pending[p].read <= w.now && WithinSkew(w.pending[p].request.ts, w.pending[p].read))
    && (forall j :: 0 <= j < |w.log| && w.log[j].Swept? ==> w.log[j].cutoff <= w.now)
  }

  /** The shards cover every entry that no purge has reached, and hold nothing else. */
  ghost predicate Inv(w: World) {
    && |w.shards| == SHARDS
    && Timely(w)
    && (forall j :: 0 <= j < |w.log| && w.log[j].Took? && !Gone(w.log, j) ==> Covered(w.shards, w.log[j]))
    && (forall i, k :: 0 <= i < SHARDS && k in w.shards[i] ==> Explained(w.log, i, k, w.shards[i][k]))
  }

  lemma ExplainedNext(log: seq<Event>, e: Event, i: int, k: Bytes, expiry: Time)
    requires Explained(log, i, k, expiry) && !Clears(e, expiry)
    ensures Explained(log + [e], i, k, expiry)
  {
    var j :| 0 <= j < |log| && Explains(log[j], i, k, expiry) && !Gone(log, j);
    GoneNext(log, e, j);
    assert (log + [e])[j] == log[j];
  }

  /** Recording a request moves its slot's expiry forward, never back. */
  lemma RecordCovers(s: Shards, h: Held, e: Event)
    requires |s| == SHARDS && e.Took? && Covered(s, e) && Passes(s, h.read, h.request)
    ensures Covered(Recorded(s, h.request.device, h.request.nonce, h.request.ts + SKEW), e)
  {
    WithinSkewExactly(h.request.ts, h.read);
  }

  lemma FinishCovers(w: World, h: Held, log: seq<Event>, s: Shards)
    requires Inv(w) && Passes(w.shards, h.read, h.request)
    requires log == w.log + [TookFor(h, w.now)]
             && s == Recorded(w.shards, h.request.device, h.request.nonce, h.request.ts + SKEW)
    ensures forall j :: 0 <= j < |log| && log[j].Took? && !Gone(log, j) ==> Covered(s, log[j])
  {
    forall j | 0 <= j < |log| && log[j].Took? && !Gone(log, j)
      ensures Covered(s, log[j])
    {
      if j < |w.log| {
        assert log[j] == w.log[j];
        GoneNext(w.log, TookFor(h, w.now), j);
        RecordCovers(w.shards, h, log[j]);
      }
    }
  }

  lemma FinishExplained(w: World, h: Held, log: seq<Event>, s: Shards)
    requires Inv(w)
    requires log == w.log + [TookFor(h, w.now)]
             && s == Recorded(w.shards, h.request.device, h.request.nonce, h.request.ts + SKEW)
    ensures forall i, k :: 0 <= i < SHARDS && k in s[i] ==> Explained(log, i, k, s[i][k])
  {
    forall i, k | 0 <= i < SHARDS && k in s[i]
      ensures Explained(log, i, k, s[i][k])
    {
      if i == ShardOf(h.request.device) && k == Key(h.request.device, h.request.nonce) {
        var j := |w.log|;
        assert Explains(log[j], i, k, s[i][k]) && !Gone(log, j);
      } else {
        assert k in w.shards[i] && w.shards[i][k] == s[i][k];
        ExplainedNext(w.log, TookFor(h, w.now), i, k, s[i][k]);
      }
    }
  }

  lemma FinishKeeps(w: World, i: nat)
    requires Inv(w) && i < |w.pending|
    ensures Inv(Apply(w, Finish(i)))
  {
    var h := w.pending[i];
    var w' := Apply(w, Finish(i));
    assert forall p :: 0 <= p < |w'.pending| ==> w'.pending[p] == w.pending[if p < i then p else p + 1];
    if Passes(w.shards, h.read, h.request) {
      FinishCovers(w, h, w'.log, w'.shards);
      FinishExplained(w, h, w'.log, w'.shards);
    }
  }

  lemma PurgeCovers(w: World, cutoff: Time, log: seq<Event>, s: Shards)
    requires Inv(w) && log == w.log + [Swept(cutoff)] && s == Purged(w.shards, cutoff)
    ensures forall j :: 0 <= j < |log| && log[j].Took? && !Gone(log, j) ==> Covered(s, log[j])
  {
    forall j | 0 <= j < |log| && log[j].Took? && !Gone(log, j)
      ensures Covered(s, log[j])
    {
      assert log[j] == w.log[j];
      GoneNext(w.log, Swept(cutoff), j);
      var i := ShardOf(log[j].device);
      assert Covered(w.shards, w.log[j]) && s[i] == Live(w.shards[i], cutoff);
    }
  }

  lemma PurgeExplained(w: World, cutoff: Time, log: seq<Event>, s: Shards)
    requires Inv(w) && log == w.log + [Swept(cutoff)] && s == Purged(w.shards, cutoff)
    ensures forall i, k :: 0 <= i < SHARDS && k in s[i] ==> Explained(log, i, k, s[i][k])
  {
    forall i, k | 0 <= i < SHARDS && k in s[i]
      ensures Explained(log, i, k, s[i][k])
    {
      assert s[i] == Live(w.shards[i], cutoff);
      assert k in w.shards[i];
      ExplainedNext(w.log, Swept(cutoff), i, k, w.shards[i][k]);
    }
  }

  lemma PurgeKeeps(w: World, age: nat)
    requires Inv(w)
    ensures Inv(Apply(w, Purge(age)))
  {
    var w', cutoff := Apply(w, Purge(age)), w.now - age;
    PurgeCovers(w, cutoff, w'.log, w'.shards);
    PurgeExplained(w, cutoff, w'.log, w'.shards);
  }

  lemma RestartKeeps(w: World)
    requires Inv(w)
    ensures Inv(Apply(w, Restart))
  {
    var w' := Apply(w, Restart);
    forall j | 0 <= j < |w'.log| && w'.log[j].Took? ensures Gone(w'.log, j) {
      assert w'.log[j] == w.log[j];
      GoneNext(w.log, Restarted, j);
    }
  }

  lemma {:induction false} RunKeeps(start: Time, steps: seq<Step>)
    ensures Inv(Run(start, steps))
  {
    if steps != [] {
      var n := |steps| - 1;
      RunKeeps(start, steps[..n]);
      var w := Run(start, steps[..n]);
      match steps[n]
      case Tick(_) =>
      case Admit(_) =>
      case Purge(age) => PurgeKeeps(w, age);
      case Restart => RestartKeeps(w);
      case Finish(i) => if i < |w.pending| { FinishKeeps(w, i); }
    }
  }

  /** In every run the answer depends on what was recorded and purged before, for every reading, and not on the
      shards. */
  lemma AnswerIsHistory(start: Time, steps: seq<Step>, d: Bytes, n: Bytes, read: Time)
    ensures var w := Run(start, steps);
            Unseen(w.shards, d, n, read) <==> forall i :: 0 <= i < |w.log| ==> !Blocks(w.log, i, d, n, read)
  {
    RunKeeps(start, steps);
    var w := Run(start, steps);
    var s, k := ShardOf(d), Key(d, n);
    if Unseen(w.shards, d, n, read) {
      forall i | 0 <= i < |w.log|
        ensures !Blocks(w.log, i, d, n, read)
      {
        if w.log[i].Took? && !Gone(w.log, i) {
          assert Covered(w.shards, w.log[i]);
        }
      }
    } else {
      assert Explained(w.log, s, k, w.shards[s][k]);
      var i :| 0 <= i < |w.log| && Explains(w.log[i], s, k, w.shards[s][k]) && !Gone(w.log, i);
      assert Blocks(w.log, i, d, n, read);
    }
  }

  predicate LogNulFree(log: seq<Event>) {
    forall i :: 0 <= i < |log| && log[i].Took? ==> NulFree(log[i].device)
  }

  /** With NUL-free device ids the slot is the pair: an admitted request passes exactly when every record of its
      device and nonce had expired at its reading, or was reached by a purge since, or a restart came since. */
  lemma PassesExactly(start: Time, steps: seq<Step>, p: nat)
    requires var w := Run(start, steps);
             LogNulFree(w.log) && p < |w.pending| && NulFree(w.pending[p].request.device)
    ensures var w := Run(start, steps);
            var h := w.pending[p];
            Passes(w.shards, h.read, h.request) <==>
              && h.request.vouched
              && (forall i :: 0 <= i < |w.log| && SamePair(w.log[i], h.request.device, h.request.nonce) ==>
                    Expiry(w.log[i]) <= h.read || Gone(w.log, i))
  {
    RunKeeps(start, steps);
    var w := Run(start, steps);
    var q, read := w.pending[p].request, w.pending[p].read;
    AnswerIsHistory(start, steps, q.device, q.nonce, read);
    forall i | 0 <= i < |w.log|
      ensures Blocks(w.log, i, q.device, q.nonce, read) <==>
                SamePair(w.log[i], q.device, q.nonce) && Expiry(w.log[i]) > read && !Gone(w.log, i)
    {
      if w.log[i].Took? {
        KeyInjective(w.log[i].device, w.log[i].nonce, q.device, q.nonce);
      }
    }
  }

  /** Two device ids, one holding a NUL, that share a shard and a key: the second pair is refused unseen. */
  lemma NulMakesPairsCollide()
    ensures var d: Bytes, n: Bytes, e: Bytes, m: Bytes := [], [88, 0], [0, 88], [];
            && (d, n) != (e, m) && SameSlot(d, n, e, m)
            && forall now, expiry :: expiry > now ==> !Unseen(Recorded(Empty(), d, n, expiry), e, m, now)
  {
    SameHash();
    assert Key([], [88, 0]) == [0, 88, 0] == Key([0, 88], []);
  }

  lemma SameHash()
    ensures Fnv([0, 88]) == 964089541 && ShardOf([]) == ShardOf([0, 88])
  {
    var e: Bytes := [0, 88];
    assert e[..1] == [0] && e[..1][..0] == [];
    assert Fnv([]) == 2166136261;
    assert Fnv([0]) == 84696351;
    assert Gf2.Xor(84696351, 88) == 84696391;
  }

  // ---------------------------------------------------------------------
  // Replay
  // ---------------------------------------------------------------------

  predicate RestartBetween(log: seq<Event>, i: nat, j: nat)
    requires i < j <= |log|
  {
    exists k :: i < k < j && log[k].Restarted?
  }

  /** A purge between entries i and j reached the expiry of i, or a restart fell between. */
  predicate SweptBetween(log: seq<Event>, i: nat, j: nat)
    requires i < j <= |log| && log[i].Took?
  {
    Gone(log[..j], i)
  }

  /**
   In every run, a pair accepted again was accepted at or after the first request's
   expiry, or after a restart. A second copy of one request was read at that very
   instant, or it was read before, and a purge or a restart took the record before the
   copy's own was made.
   */
  lemma {:induction false} NoReplayBeforeExpiry(start: Time, steps: seq<Step>, i: nat, j: nat)
    requires i < j < |Run(start, steps).log|
    requires var log := Run(start, steps).log; log[i].Took? && SamePair(log[j], log[i].device, log[i].nonce)
    ensures var log := Run(start, steps).log;
            && (Expiry(log[i]) <= log[j].at || RestartBetween(log, i, j))
            && (Expiry(log[i]) <= log[j].read || SweptBetween(log, i, j))
            && (log[i].ts == log[j].ts ==> log[j].read <= Expiry(log[i]))
            && (log[i].ts == log[j].ts && log[j].read == log[j].at ==>
                  log[j].at == Expiry(log[i]) || RestartBetween(log, i, j))
  {
    var n := |steps| - 1;
    var w, w' := Run(start, steps[..n]), Run(start, steps);
    assert w'.log[..|w.log|] == w.log;
    if j < |w.log| {
      NoReplayBeforeExpiry(start, steps[..n], i, j);
      assert w'.log[..j] == w.log[..j];
      if RestartBetween(w.log, i, j) {
        var k :| i < k < j && w.log[k].Restarted?;
        assert w'.log[k].Restarted?;
      }
    } else {
      RunKeeps(start, steps[..n]);
      var h := w.pending[steps[n].index];
      AnswerIsHistory(start, steps[..n], h.request.device, h.request.nonce, h.read);
      assert !Blocks(w.log, i, h.request.device, h.request.nonce, h.read);
      WithinSkewExactly(h.request.ts, h.read);
      if Gone(w.log, i) {
        var k :| i < k < |w.log| && Clears(w.log[k], Expiry(w.log[i]));
        assert w'.log[k] == w.log[k];
      }
    }
  }

  /** The one acceptance of a pair so far, and a waiting copy of that request: it passes exactly if it was read at the
      closing instant, or a purge has reached the record, or the process was restarted. */
  lemma LateCopyExactly(start: Time, steps: seq<Step>, i: nat, p: nat)
    requires var w := Run(start, steps);
             && i < |w.log| && w.log[i].Took? && p < |w.pending| && w.pending[p].request.vouched
             && SamePair(w.log[i], w.pending[p].request.device, w.pending[p].request.nonce)
             && w.log[i].ts == w.pending[p].request.ts
             && LogNulFree(w.log)
             && (forall j :: 0 <= j < |w.log| && SamePair(w.log[j], w.log[i].device, w.log[i].nonce) ==> j == i)
    ensures var w := Run(start, steps);
            Passes(w.shards, w.pending[p].read, w.pending[p].request) <==>
              w.pending[p].read == Expiry(w.log[i]) || Gone(w.log, i)
  {
    RunKeeps(start, steps);
    PassesExactly(start, steps, p);
    var h := Run(start, steps).pending[p];
    WithinSkewExactly(h.request.ts, h.read);
  }

  lemma RunNext(start: Time, steps: seq<Step>, k: nat)
    requires k < |steps|
    ensures Run(start, steps[..k + 1]) == Apply(Run(start, steps[..k]), steps[k])
  {
    assert steps[..k + 1][..k] == steps[..k];
  }

  lemma RunWhole(start: Time, steps: seq<Step>)
    ensures Run(start, steps[..|steps|]) == Run(start, steps) && Run(start, steps[..0]) == World(Empty(), start, [], [])
  {
    assert steps[..|steps|] == steps;
  }

  /** Two copies of a request admitted at once, the second recorded only after a wait and a purge; and both passing. */
  function StalledSteps(q: Request, wait: nat): seq<Step> {
    [Admit(q), Admit(q), Finish(0), Tick(wait), Purge(0), Finish(0)]
  }

  function StalledLog(q: Request, late: Time): seq<Event> {
    [Took(q.device, q.nonce, q.ts, q.ts, q.ts), Swept(late), Took(q.device, q.nonce, q.ts, q.ts, late)]
  }

  /** The cache once one request has passed, with what is still waiting. */
  function Once(q: Request, pending: seq<Held>): World {
    World(Recorded(Empty(), q.device, q.nonce, q.ts + SKEW), q.ts, pending, [Took(q.device, q.nonce, q.ts, q.ts, q.ts)])
  }

  lemma FirstPasses(q: Request, rest: seq<Held>)
    requires q.vouched
    ensures Apply(World(Empty(), q.ts, [Held(q, q.ts)] + rest, []), Finish(0)) == Once(q, rest)
  {
    assert Without([Held(q, q.ts)] + rest, 0) == rest;
  }

  lemma StalledFinish(q: Request, late: nat)
    requires q.vouched
    ensures Apply(Apply(Apply(Once(q, [Held(q, q.ts)]), Tick(SKEW + late)), Purge(0)), Finish(0)).log
            == StalledLog(q, q.ts + SKEW + late)
  {
    var w := Apply(Once(q, [Held(q, q.ts)]), Tick(SKEW + late));
    var i := ShardOf(q.device);
    assert w.shards[i][Key(q.device, q.nonce)] == q.ts + SKEW;
    assert Apply(w, Purge(0)).shards[i] == Live(w.shards[i], q.ts + SKEW + late);
  }

  /** The next state of a run, from the state so far. */
  lemma Follow(start: Time, steps: seq<Step>, k: nat, w: World, step: Step)
    requires k < |steps| && steps[k] == step && Run(start, steps[..k]) == w
    ensures |w.shards| == SHARDS && Run(start, steps[..k + 1]) == Apply(w, step)
  {
    RunNext(start, steps, k);
  }

  lemma AdmitFirst(q: Request, steps: seq<Step>)
    requires steps != [] && steps[0] == Admit(q)
    ensures Run(q.ts, steps[..1]) == World(Empty(), q.ts, [Held(q, q.ts)] + [], [])
  {
    Follow(q.ts, steps, 0, World(Empty(), q.ts, [], []), Admit(q));
  }

  lemma AdmitBoth(q: Request, steps: seq<Step>)
    requires |steps| >= 2 && steps[0] == Admit(q) && steps[1] == Admit(q)
    ensures Run(q.ts, steps[..2]) == World(Empty(), q.ts, [Held(q, q.ts)] + [Held(q, q.ts)], [])
  {
    AdmitFirst(q, steps);
    Follow(q.ts, steps, 1, World(Empty(), q.ts, [Held(q, q.ts)] + [], []), Admit(q));
  }

  /** From a state reached after k steps, three more. */
  lemma ThreeMore(start: Time, steps: seq<Step>, k: nat, w: World, a: Step, b: Step, c: Step)
    requires |w.shards| == SHARDS && |steps| == k + 3 && Run(start, steps[..k]) == w
    requires steps[k] == a && steps[k + 1] == b && steps[k + 2] == c
    ensures Run(start, steps) == Apply(Apply(Apply(w, a), b), c)
  {
    Follow(start, steps, k, w, a);
    Follow(start, steps, k + 1, Apply(w, a), b);
    Follow(start, steps, k + 2, Apply(Apply(w, a), b), c);
    RunWhole(start, steps);
  }

  lemma OnceOfTwo(q: Request, steps: seq<Step>)
    requires q.vouched && |steps| >= 3 && steps[0] == Admit(q) && steps[1] == Admit(q) && steps[2] == Finish(0)
    ensures Run(q.ts, steps[..3]) == Once(q, [Held(q, q.ts)])
  {
    AdmitBoth(q, steps);
    FirstPasses(q, [Held(q, q.ts)]);
    Follow(q.ts, steps, 2, World(Empty(), q.ts, [Held(q, q.ts)] + [Held(q, q.ts)], []), Finish(0));
  }

  lemma OnceOfOne(q: Request, steps: seq<Step>)
    requires q.vouched && |steps| >= 2 && steps[0] == Admit(q) && steps[1] == Finish(0)
    ensures Run(q.ts, steps[..2]) == Once(q, [])
  {
    AdmitFirst(q, steps);
    FirstPasses(q, []);
    Follow(q.ts, steps, 1, World(Empty(), q.ts, [Held(q, q.ts)] + [], []), Finish(0));
  }

  /** A request, and a copy of it checked at the same time but recorded only after a purge at or past the expiry: both
      pass. */
  lemma StalledCopyPasses(q: Request, late: nat)
    requires q.vouched
    ensures Run(q.ts, StalledSteps(q, SKEW + late)).log == StalledLog(q, q.ts + SKEW + late)
  {
    var steps := StalledSteps(q, SKEW + late);
    OnceOfTwo(q, steps);
    ThreeMore(q.ts, steps, 3, Once(q, [Held(q, q.ts)]), Tick(SKEW + late), Purge(0), Finish(0));
    StalledFinish(q, late);
  }

  lemma ClosingFinish(q: Request)
    requires q.vouched
    ensures var expiry := q.ts + SKEW;
            Apply(Apply(Apply(Once(q, []), Tick(SKEW)), Admit(q)), Finish(0)).log
            == [Took(q.device, q.nonce, q.ts, q.ts, q.ts), Took(q.device, q.nonce, q.ts, expiry, expiry)]
  {
    WithinSkewExactly(q.ts, q.ts + SKEW);
    var w := Apply(Apply(Once(q, []), Tick(SKEW)), Admit(q));
    assert w.pending == [Held(q, q.ts + SKEW)];
    assert w.shards[ShardOf(q.device)][Key(q.device, q.nonce)] == q.ts + SKEW;
  }

  /** Without a purge a second copy read at the closing instant passes too. */
  lemma ClosingInstantPasses(q: Request)
    requires q.vouched
    ensures var w := Run(q.ts, [Admit(q), Finish(0), Tick(SKEW), Admit(q), Finish(0)]);
            var expiry := q.ts + SKEW;
            w.log == [Took(q.device, q.nonce, q.ts, q.ts, q.ts), Took(q.device, q.nonce, q.ts, expiry, expiry)]
  {
    var steps := [Admit(q), Finish(0), Tick(SKEW), Admit(q), Finish(0)];
    OnceOfOne(q, steps);
    ThreeMore(q.ts, steps, 2, Once(q, []), Tick(SKEW), Admit(q), Finish(0));
    ClosingFinish(q);
  }

  lemma RestartFinish(q: Request)
    requires q.vouched
    ensures var took := Took(q.device, q.nonce, q.ts, q.ts, q.ts);
            Apply(Apply(Apply(Once(q, []), Restart), Admit(q)), Finish(0)).log == [took, Restarted, took]
  {
    var w := Apply(Apply(Once(q, []), Restart), Admit(q));
    assert w.shards == Empty() && w.pending == [Held(q, q.ts)];
  }

  /** A restart loses every record and every request still waiting, and no time; the table keeps its records. */
  lemma RestartExactly(w: World, l: Ledger, before: Order, d: Bytes, n: Bytes, read: Time)
    requires |w.shards| == SHARDS
    ensures var w' := Apply(w, Restart);
            && |w'.shards| == SHARDS && Unseen(w'.shards, d, n, read) && w'.pending == [] && w'.now == w.now
            && w'.log == w.log + [Restarted]
    ensures var l' := TableApply(l, before, Restart);
            l'.rows == l.rows && l'.pending == [] && l'.now == l.now && l'.log == l.log + [Restarted]
  {
  }

  /** The cache is not kept across a restart, so a copy passes right after one. */
  lemma RestartForgets(q: Request)
    requires q.vouched
    ensures var took := Took(q.device, q.nonce, q.ts, q.ts, q.ts);
            Run(q.ts, [Admit(q), Finish(0), Restart, Admit(q), Finish(0)]).log == [took, Restarted, took]
  {
    var steps := [Admit(q), Finish(0), Restart, Admit(q), Finish(0)];
    OnceOfOne(q, steps);
    ThreeMore(q.ts, steps, 2, Once(q, []), Restart, Admit(q), Finish(0));
    RestartFinish(q);
  }

  // ---------------------------------------------------------------------
  // The shards refine one map over pairs
  // ---------------------------------------------------------------------

  type Pairs = map<(Bytes, Bytes), Time>

  predicate PairUnseen(m: Pairs, d: Bytes, n: Bytes, read: Time) {
    !((d, n) in m && m[(d, n)] > read)
  }

  /** The same step on one map, with the clock and the waiting requests of the sharded world. */
  function PairApply(m: Pairs, w: World, step: Step): Pairs {
    match step
    case Tick(_) => m
    case Admit(_) => m
    case Restart => map[]
    case Purge(age) => map p | p in m && m[p] > w.now - age :: m[p]
    case Finish(i) =>
      if i >= |w.pending| then m
      else
        var q, read := w.pending[i].request, w.pending[i].read;
        if WithinSkew(q.ts, read) && q.vouched && PairUnseen(m, q.device, q.nonce, read)
        then m[(q.device, q.nonce) := q.ts + SKEW] else m
  }

  function PairRun(start: Time, steps: seq<Step>): Pairs {
    if steps == [] then map[]
    else PairApply(PairRun(start, steps[..|steps| - 1]), Run(start, steps[..|steps| - 1]), steps[|steps| - 1])
  }

  predicate Agree(s: Shards, m: Pairs, d: Bytes, n: Bytes)
    requires |s| == SHARDS
  {
    var seen := s[ShardOf(d)];
    && (Key(d, n) in seen <==> (d, n) in m)
    && ((d, n) in m ==> seen[Key(d, n)] == m[(d, n)])
  }

  predicate AdmitsNulFree(steps: seq<Step>) {
    forall i :: 0 <= i < |steps| && steps[i].Admit? ==> NulFree(steps[i].request.device)
  }

  lemma {:induction false} PendingNulFree(start: Time, steps: seq<Step>, p: nat)
    requires AdmitsNulFree(steps) && p < |Run(start, steps).pending|
    ensures NulFree(Run(start, steps).pending[p].request.device)
  {
    var n := |steps| - 1;
    var w, w' := Run(start, steps[..n]), Run(start, steps);
    var from := if steps[n].Finish? && steps[n].index < |w.pending| && p >= steps[n].index then p + 1 else p;
    if from < |w.pending| {
      assert w'.pending[p] == w.pending[from];
      PendingNulFree(start, steps[..n], from);
    }
  }

  lemma StepAgrees(w: World, m: Pairs, step: Step, d: Bytes, n: Bytes)
    requires |w.shards| == SHARDS && NulFree(d) && Agree(w.shards, m, d, n)
    requires step.Finish? && step.index < |w.pending| ==>
               var q := w.pending[step.index].request; NulFree(q.device) && Agree(w.shards, m, q.device, q.nonce)
    ensures Agree(Apply(w, step).shards, PairApply(m, w, step), d, n)
  {
    match step
    case Tick(_) =>
    case Admit(_) =>
    case Restart =>
    case Purge(age) => assert Apply(w, step).shards[ShardOf(d)] == Live(w.shards[ShardOf(d)], w.now - age);
    case Finish(i) =>
      if i < |w.pending| {
        KeyInjective(w.pending[i].request.device, w.pending[i].request.nonce, d, n);
      }
  }

  /** In every run whose device ids hold no NUL, the sharded cache and one map over (device, nonce) hold the same
      records and give every request the same answer. */
  lemma {:induction false} RefinesOneMap(start: Time, steps: seq<Step>, d: Bytes, n: Bytes, read: Time)
    requires AdmitsNulFree(steps) && NulFree(d)
    ensures Agree(Run(start, steps).shards, PairRun(start, steps), d, n)
    ensures Unseen(Run(start, steps).shards, d, n, read) == PairUnseen(PairRun(start, steps), d, n, read)
  {
    if steps != [] {
      var k := |steps| - 1;
      var w := Run(start, steps[..k]);
      RefinesOneMap(start, steps[..k], d, n, read);
      if steps[k].Finish? && steps[k].index < |w.pending| {
        var q := w.pending[steps[k].index].request;
        PendingNulFree(start, steps[..k], steps[k].index);
        RefinesOneMap(start, steps[..k], q.device, q.nonce, read);
      }
      StepAgrees(w, PairRun(start, steps[..k]), steps[k], d, n);
    }
  }

  // ---------------------------------------------------------------------
  // The persistent table
  // ---------------------------------------------------------------------

  /** The text of a timestamp column. Instants before year 0 are all one text here. */
  function Stamp(t: Time): string {
    if Dated(t / SECOND) then Text(t / SECOND) else "-"
  }

  /** expires_at < ? on the texts of two instants. */
  predicate SortsBefore(t: Time, u: Time) {
    Less(Stamp(t), Stamp(u))
  }

  /** The order a query compares columns by. */
  type Order = (Time, Time) -> bool

  /** Each pair's expires_at, as the instant whose text the column holds. */
  type Rows = map<(Bytes, Bytes), Time>

  function Kept(rows: Rows, now: Time, before: Order): Rows {
    map p | p in rows && !before(rows[p], now) :: rows[p]
  }

  class NonceTable {
    var rows: Rows

    constructor ()
      ensures rows == map[]
    {
      rows := map[];
    }

    method RecordNonce(device: Bytes, nonce: Bytes, expiresAt: Time) returns (ok: bool)
      modifies this
      ensures ok == ((device, nonce) !in old(rows))
      ensures rows == if ok then old(rows)[(device, nonce) := expiresAt] else old(rows)
    {
      ok := (device, nonce) !in rows;
      if ok {
        rows := rows[(device, nonce) := expiresAt];
      }
    }

    method PurgeExpiredNonces(now: Time) returns (removed: nat)
      modifies this
      ensures rows == Kept(old(rows), now, SortsBefore)
      ensures removed + |rows| == |old(rows)|
    {
      removed := 0;
      var todo := rows.Keys;
      while todo != {}
        invariant todo <= old(rows).Keys && removed + |rows| == |old(rows)|
        invariant rows.Keys <= old(rows).Keys && forall p :: p in rows ==> rows[p] == old(rows)[p]
        invariant forall p :: p in old(rows) ==> (p in rows <==> p in todo || !SortsBefore(old(rows)[p], now))
        decreases |todo|
      {
        var p :| p in todo;
        if SortsBefore(rows[p], now) {
          var rest := rows - {p};
          assert rest.Keys == rows.Keys - {p};
          rows, removed := rest, removed + 1;
        }
        todo := todo - {p};
      }
    }
  }

  datatype Ledger = Ledger(rows: Rows, now: Time, pending: seq<Held>, log: seq<Event>)

  function TableApply(l: Ledger, before: Order, step: Step): Ledger {
    match step
    case Tick(elapsed) => l.(now := l.now + elapsed)
    case Admit(q) => if WithinSkew(q.ts, l.now) then l.(pending := l.pending + [Held(q, l.now)]) else l
    case Purge(age) => l.(rows := Kept(l.rows, l.now - age, before), log := l.log + [Swept(l.now - age)])
    case Restart => l.(pending := [], log := l.log + [Restarted])
    case Finish(i) =>
      if i >= |l.pending| then l
      else
        var q := l.pending[i].request;
        var rest := Without(l.pending, i);
        if q.vouched && (q.device, q.nonce) !in l.rows
        then Ledger(l.rows[(q.device, q.nonce) := q.ts + SKEW], l.now, rest, l.log + [TookFor(l.pending[i], l.now)])
        else l.(pending := rest)
  }

  function TableRun(start: Time, before: Order, steps: seq<Step>): Ledger {
    if steps == [] then Ledger(map[], start, [], [])
    else TableApply(TableRun(start, before, steps[..|steps| - 1]), before, steps[|steps| - 1])
  }

  /** A purge since came after the expiry of entry i, in the columns' order. */
  predicate Dropped(log: seq<Event>, before: Order, i: nat)
    requires i < |log| && log[i].Took?
  {
    exists k :: i < k < |log| && log[k].Swept? && before(Expiry(log[i]), log[k].cutoff)
  }

  lemma DroppedNext(log: seq<Event>, before: Order, e: Event, i: nat)
    requires i < |log| && log[i].Took?
    ensures Dropped(log + [e], before, i) <==> Dropped(log, before, i) || (e.Swept? && before(Expiry(log[i]), e.cutoff))
  {
    var log' := log + [e];
    assert log'[|log|] == e;
    if Dropped(log, before, i) {
      var k :| i < k < |log| && log[k].Swept? && before(Expiry(log[i]), log[k].cutoff);
      assert log'[k] == log[k];
    }
  }

  predicate HasRow(rows: Rows, e: Event)
    requires e.Took?
  {
    (e.device, e.nonce) in rows && rows[(e.device, e.nonce)] == Expiry(e)
  }

  predicate RowExplained(log: seq<Event>, before: Order, d: Bytes, n: Bytes) {
    exists i :: 0 <= i < |log| && SamePair(log[i], d, n) && !Dropped(log, before, i)
  }

  ghost predicate RowsKept(log: seq<Event>, before: Order, rows: Rows) {
    forall i :: 0 <= i < |log| && log[i].Took? && !Dropped(log, before, i) ==> HasRow(rows, log[i])
  }

  ghost predicate RowsExplained(log: seq<Event>, before: Order, rows: Rows) {
    forall d, n :: (d, n) in rows ==> RowExplained(log, before, d, n)
  }

  ghost predicate TableTimely(l: Ledger) {
    && (forall p :: 0 <= p < |l.pending| ==>
       l.pending[p].read <= l.now && WithinSkew(l.pending[p].request.ts, l.pending[p].read))
    && (forall i :: 0 <= i < |l.log| && l.log[i].Swept? ==> l.log[i].cutoff <= l.now)
  }

  /** A row for every acceptance not dropped, and no other. */
  ghost predicate TableInv(l: Ledger, before: Order) {
    TableTimely(l) && RowsKept(l.log, before, l.rows) && RowsExplained(l.log, before, l.rows)
  }

  lemma RowExplainedNext(log: seq<Event>, before: Order, e: Event, i: nat, d: Bytes, n: Bytes)
    requires i < |log| && SamePair(log[i], d, n) && !Dropped(log, before, i)
    requires e.Swept? ==> !before(Expiry(log[i]), e.cutoff)
    ensures RowExplained(log + [e], before, d, n)
  {
    DroppedNext(log, before, e, i);
    assert (log + [e])[i] == log[i];
  }

  lemma PurgeKeepsRows(log: seq<Event>, before: Order, rows: Rows, cutoff: Time)
    requires RowsKept(log, before, rows)
    ensures RowsKept(log + [Swept(cutoff)], before, Kept(rows, cutoff, before))
  {
    var log' := log + [Swept(cutoff)];
    forall i | 0 <= i < |log'| && log'[i].Took? && !Dropped(log', before, i)
      ensures HasRow(Kept(rows, cutoff, before), log'[i])
    {
      assert log'[i] == log[i];
      DroppedNext(log, before, Swept(cutoff), i);
      assert HasRow(rows, log[i]);
    }
  }

  lemma PurgeKeepsReasons(log: seq<Event>, before: Order, rows: Rows, cutoff: Time)
    requires RowsKept(log, before, rows) && RowsExplained(log, before, rows)
    ensures RowsExplained(log + [Swept(cutoff)], before, Kept(rows, cutoff, before))
  {
    forall d, n | (d, n) in Kept(rows, cutoff, before)
      ensures RowExplained(log + [Swept(cutoff)], before, d, n)
    {
      assert RowExplained(log, before, d, n);
      var i :| 0 <= i < |log| && SamePair(log[i], d, n) && !Dropped(log, before, i);
      assert HasRow(rows, log[i]);
      RowExplainedNext(log, before, Swept(cutoff), i, d, n);
    }
  }

  lemma InsertKeepsRows(log: seq<Event>, before: Order, rows: Rows, e: Event)
    requires e.Took? && RowsKept(log, before, rows) && (e.device, e.nonce) !in rows
    ensures RowsKept(log + [e], before, rows[(e.device, e.nonce) := Expiry(e)])
  {
    var log' := log + [e];
    forall i | 0 <= i < |log'| && log'[i].Took? && !Dropped(log', before, i)
      ensures HasRow(rows[(e.device, e.nonce) := Expiry(e)], log'[i])
    {
      if i < |log| {
        assert log'[i] == log[i];
        DroppedNext(log, before, e, i);
        assert HasRow(rows, log[i]);
      }
    }
  }

  lemma InsertKeepsReasons(log: seq<Event>, before: Order, rows: Rows, e: Event)
    requires e.Took? && RowsExplained(log, before, rows)
    ensures RowsExplained(log + [e], before, rows[(e.device, e.nonce) := Expiry(e)])
  {
    var log' := log + [e];
    forall d, n | (d, n) in rows[(e.device, e.nonce) := Expiry(e)]
      ensures RowExplained(log', before, d, n)
    {
      if (d, n) == (e.device, e.nonce) {
        assert SamePair(log'[|log|], d, n) && !Dropped(log', before, |log|);
      } else {
        assert RowExplained(log, before, d, n);
        var i :| 0 <= i < |log| && SamePair(log[i], d, n) && !Dropped(log, before, i);
        RowExplainedNext(log, before, e, i, d, n);
      }
    }
  }

  lemma TableFinishKeeps(l: Ledger, before: Order, p: nat)
    requires TableInv(l, before) && p < |l.pending|
    ensures TableInv(TableApply(l, before, Finish(p)), before)
  {
    var l', e := TableApply(l, before, Finish(p)), TookFor(l.pending[p], l.now);
    assert forall r :: 0 <= r < |l'.pending| ==> l'.pending[r] == l.pending[if r < p then r else r + 1];
    assert TableTimely(l');
    if l'.log != l.log {
      InsertKeepsRows(l.log, before, l.rows, e);
      InsertKeepsReasons(l.log, before, l.rows, e);
    }
  }

  lemma TableStepKeeps(l: Ledger, before: Order, step: Step)
    requires TableInv(l, before)
    ensures TableInv(TableApply(l, before, step), before)
  {
    match step
    case Tick(_) =>
    case Admit(_) =>
    case Purge(age) =>
      PurgeKeepsRows(l.log, before, l.rows, l.now - age);
      PurgeKeepsReasons(l.log, before, l.rows, l.now - age);
    case Restart => TableRestartKeeps(l, before);
    case Finish(p) => if p < |l.pending| { TableFinishKeeps(l, before, p); }
  }

  /** The rows survive a restart. */
  lemma TableRestartKeeps(l: Ledger, before: Order)
    requires TableInv(l, before)
    ensures TableInv(TableApply(l, before, Restart), before)
  {
    var l' := TableApply(l, before, Restart);
    forall i | 0 <= i < |l'.log| && l'.log[i].Took? && !Dropped(l'.log, before, i) ensures HasRow(l'.rows, l'.log[i]) {
      assert l'.log[i] == l.log[i];
      DroppedNext(l.log, before, Restarted, i);
    }
    forall d, n | (d, n) in l'.rows ensures RowExplained(l'.log, before, d, n) {
      assert RowExplained(l.log, before, d, n);
      var i :| 0 <= i < |l.log| && SamePair(l.log[i], d, n) && !Dropped(l.log, before, i);
      RowExplainedNext(l.log, before, Restarted, i, d, n);
    }
  }

  lemma {:induction false} TableRunKeeps(start: Time, before: Order, steps: seq<Step>)
    ensures TableInv(TableRun(start, before, steps), before)
  {
    if steps != [] {
      var n := |steps| - 1;
      TableRunKeeps(start, before, steps[..n]);
      TableStepKeeps(TableRun(start, before, steps[..n]), before, steps[n]);
    }
  }

  /** In every run, under any order of the columns, the table refuses a pair exactly while some acceptance of it has
      not been dropped. */
  lemma TableAnswerIsHistory(start: Time, before: Order, steps: seq<Step>, d: Bytes, n: Bytes)
    ensures var l := TableRun(start, before, steps);
            (d, n) !in l.rows <==> forall i :: 0 <= i < |l.log| && SamePair(l.log[i], d, n) ==>
              Dropped(l.log, before, i)
  {
    TableRunKeeps(start, before, steps);
    var l := TableRun(start, before, steps);
    if (d, n) in l.rows {
      assert RowExplained(l.log, before, d, n);
    } else {
      forall i | 0 <= i < |l.log| && SamePair(l.log[i], d, n)
        ensures Dropped(l.log, before, i)
      {
        assert !HasRow(l.rows, l.log[i]);
      }
    }
  }

  /** The clock reads a date the columns' order can rank: year 0 to 9999. */
  predicate Ranked(t: Time) {
    Dated(t / SECOND) && YearOf(t / SECOND) < 10000
  }

  /** A purge drops a row whose expiry is not past exactly if that expiry lies beyond year 9999 and the four leading
      digits of its year make a smaller number than the clock's year. */
  lemma PurgedEarlyExactly(expiry: Time, cutoff: Time)
    requires Ranked(cutoff) && cutoff <= expiry && Dated(expiry / SECOND)
    ensures SortsBefore(expiry, cutoff) <==>
              YearOf(expiry / SECOND) >= 10000 && Lead(YearOf(expiry / SECOND)) < YearOf(cutoff / SECOND)
  {
    TextOrder(expiry / SECOND, cutoff / SECOND);
    SecondsMonotone(cutoff, expiry);
  }

  lemma SecondsMonotone(t: Time, u: Time)
    requires t <= u
    ensures t / SECOND <= u / SECOND
  {
  }

  /** Within the ranked years a dropped row had expired. */
  lemma DroppedMeansExpired(expiry: Time, cutoff: Time)
    requires Ranked(expiry) && SortsBefore(expiry, cutoff) && (Dated(cutoff / SECOND) ==> Ranked(cutoff))
    ensures expiry < cutoff
  {
    if Dated(cutoff / SECOND) {
      TextOrder(expiry / SECOND, cutoff / SECOND);
    } else {
      TextStartsWithDigit(expiry / SECOND);
      DigitAfterHyphen(Stamp(expiry), "-");
    }
  }

  lemma RankedBefore(t: Time, u: Time)
    requires t <= u && Ranked(u) && Dated(t / SECOND)
    ensures Ranked(t)
  {
    SecondsMonotone(t, u);
    YearOrder(u / SECOND, t / SECOND);
  }

  lemma DroppedInTime(l: Ledger, i: nat)
    requires TableInv(l, SortsBefore) && Ranked(l.now) && i < |l.log| && l.log[i].Took? && Ranked(Expiry(l.log[i]))
             && Dropped(l.log, SortsBefore, i)
    ensures Expiry(l.log[i]) < l.now
  {
    var k :| i < k < |l.log| && l.log[k].Swept? && SortsBefore(Expiry(l.log[i]), l.log[k].cutoff);
    var cutoff := l.log[k].cutoff;
    if Dated(cutoff / SECOND) {
      RankedBefore(cutoff, l.now);
    }
    DroppedMeansExpired(Expiry(l.log[i]), cutoff);
  }

  /**
   While the clock is before year 10000: a pair whose expiry is too is not accepted
   again up to and including the closing instant, and a copy of the same request only
   if it was read before the purge that dropped the record, so never promptly.
   */
  lemma {:induction false} TableNeverReplays(start: Time, steps: seq<Step>, i: nat, j: nat)
    requires Ranked(TableRun(start, SortsBefore, steps).now) && Dated(start / SECOND)
    requires i < j < |TableRun(start, SortsBefore, steps).log|
    requires var log := TableRun(start, SortsBefore, steps).log;
             log[i].Took? && SamePair(log[j], log[i].device, log[i].nonce) && Ranked(Expiry(log[i]))
    ensures var log := TableRun(start, SortsBefore, steps).log;
            Expiry(log[i]) < log[j].at && (log[i].ts == log[j].ts ==> log[j].read <= Expiry(log[i]))
  {
    var n := |steps| - 1;
    var l := TableRun(start, SortsBefore, steps[..n]);
    RankedUpTo(start, steps);
    if j < |l.log| {
      TableNeverReplays(start, steps[..n], i, j);
    } else {
      TableRunKeeps(start, SortsBefore, steps[..n]);
      NotTakenAgain(l, steps[n], i);
    }
  }

  /** One step after a ranked state: what was accepted before is accepted again only after its record was dropped. */
  lemma NotTakenAgain(l: Ledger, step: Step, i: nat)
    requires TableInv(l, SortsBefore) && Ranked(l.now) && i < |l.log| && l.log[i].Took? && Ranked(Expiry(l.log[i]))
    requires var log := TableApply(l, SortsBefore, step).log;
             |log| == |l.log| + 1 && SamePair(log[|l.log|], l.log[i].device, l.log[i].nonce)
    ensures var e := TableApply(l, SortsBefore, step).log[|l.log|];
            Expiry(l.log[i]) < e.at && (l.log[i].ts == e.ts ==> e.read <= Expiry(l.log[i]))
  {
    var h := l.pending[step.index];
    assert !HasRow(l.rows, l.log[i]);
    DroppedInTime(l, i);
    WithinSkewExactly(h.request.ts, h.read);
  }

  lemma {:induction false} RankedUpTo(start: Time, steps: seq<Step>)
    requires steps != [] && Dated(start / SECOND) && Ranked(TableRun(start, SortsBefore, steps).now)
    ensures Ranked(TableRun(start, SortsBefore, steps[..|steps| - 1]).now)
  {
    var l := TableRun(start, SortsBefore, steps[..|steps| - 1]);
    ClockAdvances(start, steps[..|steps| - 1]);
    SecondsMonotone(start, l.now);
    RankedBefore(l.now, TableRun(start, SortsBefore, steps).now);
  }

  lemma {:induction false} ClockAdvances(start: Time, steps: seq<Step>)
    ensures start <= TableRun(start, SortsBefore, steps).now
  {
    if steps != [] {
      ClockAdvances(start, steps[..|steps| - 1]);
    }
  }

  /** The years of an expiry and of a purge that drops it before its time. */
  predicate Misordered(expiry: Time, cutoff: Time)
    requires Dated(expiry / SECOND) && Dated(cutoff / SECOND)
  {
    YearOf(expiry / SECOND) >= 10000 && Lead(YearOf(expiry / SECOND)) < YearOf(cutoff / SECOND)
  }

  /** Up to its closing instant, the one acceptance of a pair is forgotten exactly if a misordered purge has come after
      it. */
  lemma ForgottenEarlyExactly(start: Time, steps: seq<Step>, i: nat)
    requires var l := TableRun(start, SortsBefore, steps);
             && i < |l.log| && l.log[i].Took? && Ranked(l.now) && l.now <= Expiry(l.log[i])
             && Dated(Expiry(l.log[i]) / SECOND)
             && (forall j :: 0 <= j < |l.log| && SamePair(l.log[j], l.log[i].device, l.log[i].nonce) ==> j == i)
             && (forall k :: 0 <= k < |l.log| && l.log[k].Swept? ==> Dated(l.log[k].cutoff / SECOND))
    ensures var l := TableRun(start, SortsBefore, steps);
            (l.log[i].device, l.log[i].nonce) !in l.rows <==>
              exists k :: i < k < |l.log| && l.log[k].Swept? && Misordered(Expiry(l.log[i]), l.log[k].cutoff)
  {
    TableRunKeeps(start, SortsBefore, steps);
    var l := TableRun(start, SortsBefore, steps);
    TableAnswerIsHistory(start, SortsBefore, steps, l.log[i].device, l.log[i].nonce);
    forall k | i < k < |l.log| && l.log[k].Swept?
      ensures SortsBefore(Expiry(l.log[i]), l.log[k].cutoff) <==> Misordered(Expiry(l.log[i]), l.log[k].cutoff)
    {
      RankedBefore(l.log[k].cutoff, l.now);
      PurgedEarlyExactly(Expiry(l.log[i]), l.log[k].cutoff);
    }
  }

  lemma TableNext(start: Time, before: Order, steps: seq<Step>, k: nat)
    requires k < |steps|
    ensures TableRun(start, before, steps[..k + 1]) == TableApply(TableRun(start, before, steps[..k]), before, steps[k])
  {
    assert steps[..k + 1][..k] == steps[..k];
  }

  lemma TableWhole(start: Time, before: Order, steps: seq<Step>)
    ensures TableRun(start, before, steps[..|steps|]) == TableRun(start, before, steps)
    ensures TableRun(start, before, steps[..0]) == Ledger(map[], start, [], [])
  {
    assert steps[..|steps|] == steps;
  }

  /** The table once one request has passed at now, with what is still waiting. */
  function TableOnce(q: Request, now: Time, pending: seq<Held>): Ledger {
    Ledger(map[(q.device, q.nonce) := q.ts + SKEW], now, pending, [Took(q.device, q.nonce, q.ts, now, now)])
  }

  lemma TableFirstPasses(q: Request, now: Time, rest: seq<Held>, before: Order)
    requires q.vouched
    ensures TableApply(Ledger(map[], now, [Held(q, now)] + rest, []), before, Finish(0)) == TableOnce(q, now, rest)
  {
    assert Without([Held(q, now)] + rest, 0) == rest;
  }

  lemma TableFollow(start: Time, before: Order, steps: seq<Step>, k: nat, l: Ledger, step: Step)
    requires k < |steps| && steps[k] == step && TableRun(start, before, steps[..k]) == l
    ensures TableRun(start, before, steps[..k + 1]) == TableApply(l, before, step)
  {
    TableNext(start, before, steps, k);
  }

  lemma TableAdmitFirst(q: Request, now: Time, before: Order, steps: seq<Step>)
    requires WithinSkew(q.ts, now) && steps != [] && steps[0] == Admit(q)
    ensures TableRun(now, before, steps[..1]) == Ledger(map[], now, [Held(q, now)] + [], [])
  {
    TableFollow(now, before, steps, 0, Ledger(map[], now, [], []), Admit(q));
  }

  lemma TableThreeMore(start: Time, before: Order, steps: seq<Step>, k: nat, l: Ledger, a: Step, b: Step, c: Step)
    requires |steps| == k + 3 && TableRun(start, before, steps[..k]) == l
    requires steps[k] == a && steps[k + 1] == b && steps[k + 2] == c
    ensures TableRun(start, before, steps) == TableApply(TableApply(TableApply(l, before, a), before, b), before, c)
  {
    TableFollow(start, before, steps, k, l, a);
    TableFollow(start, before, steps, k + 1, TableApply(l, before, a), b);
    TableFollow(start, before, steps, k + 2, TableApply(TableApply(l, before, a), before, b), c);
    TableWhole(start, before, steps);
  }

  lemma TableOnceOfOne(q: Request, now: Time, before: Order, steps: seq<Step>)
    requires WithinSkew(q.ts, now) && q.vouched && |steps| >= 2 && steps[0] == Admit(q) && steps[1] == Finish(0)
    ensures TableRun(now, before, steps[..2]) == TableOnce(q, now, [])
  {
    TableAdmitFirst(q, now, before, steps);
    TableFirstPasses(q, now, [], before);
    TableFollow(now, before, steps, 1, Ledger(map[], now, [Held(q, now)] + [], []), Finish(0));
  }

  lemma TableOnceOfTwo(q: Request, now: Time, before: Order, steps: seq<Step>)
    requires WithinSkew(q.ts, now) && q.vouched && |steps| >= 3
    requires steps[0] == Admit(q) && steps[1] == Admit(q) && steps[2] == Finish(0)
    ensures TableRun(now, before, steps[..3]) == TableOnce(q, now, [Held(q, now)])
  {
    TableAdmitFirst(q, now, before, steps);
    TableFollow(now, before, steps, 1, Ledger(map[], now, [Held(q, now)] + [], []), Admit(q));
    assert ([Held(q, now)] + []) + [Held(q, now)] == [Held(q, now)] + [Held(q, now)];
    TableFirstPasses(q, now, [Held(q, now)], before);
    TableFollow(now, before, steps, 2, Ledger(map[], now, [Held(q, now)] + [Held(q, now)], []), Finish(0));
  }

  lemma TableForgets(q: Request, now: Time, cutoff: Time, pending: seq<Held>, before: Order)
    requires before(q.ts + SKEW, cutoff)
    ensures Kept(TableOnce(q, now, pending).rows, cutoff, before) == map[]
  {
  }

  lemma TablePassesAgain(q: Request, now: Time, before: Order)
    requires q.vouched && WithinSkew(q.ts, now) && before(q.ts + SKEW, now)
    ensures var took := Took(q.device, q.nonce, q.ts, now, now);
            TableApply(TableApply(TableApply(TableOnce(q, now, []), before, Purge(0)), before, Admit(q)), before,
              Finish(0)).log
            == [took, Swept(now), took]
  {
    TableForgets(q, now, now, [], before);
    var l := TableApply(TableOnce(q, now, []), before, Purge(0));
    assert TableApply(l, before, Admit(q)).pending == [Held(q, now)];
  }

  /** Under any order that ranks the expiry before the clock, a purge makes the request pass again at the same
      instant. */
  lemma ForgottenPasses(q: Request, now: Time, before: Order)
    requires q.vouched && WithinSkew(q.ts, now) && before(q.ts + SKEW, now)
    ensures var took := Took(q.device, q.nonce, q.ts, now, now);
            TableRun(now, before, [Admit(q), Finish(0), Purge(0), Admit(q), Finish(0)]).log == [took, Swept(now), took]
  {
    var steps := [Admit(q), Finish(0), Purge(0), Admit(q), Finish(0)];
    TableOnceOfOne(q, now, before, steps);
    TableThreeMore(now, before, steps, 2, TableOnce(q, now, []), Purge(0), Admit(q), Finish(0));
    TablePassesAgain(q, now, before);
  }

  /** A request stamped 10000-01-01 passes in 2026, the next purge drops its row, and it passes again at the same
      instant. */
  lemma FarFutureIsForgotten(q: Request, now: Time)
    requires q.vouched && q.ts == NEW_YEAR_10000 * SECOND && now == NEW_YEAR_2026 * SECOND
    ensures var took := Took(q.device, q.nonce, q.ts, now, now);
            TableRun(now, SortsBefore, [Admit(q), Finish(0), Purge(0), Admit(q), Finish(0)]).log ==
              [took, Swept(now), took]
  {
    FarFutureSorts(q.ts + SKEW, now, NEW_YEAR_10000 + 300, NEW_YEAR_2026);
    WithinSkewExactly(q.ts, now);
    ForgottenPasses(q, now, SortsBefore);
  }

  /** Instants a whole number of seconds apart from those texts rank like the texts. */
  lemma SortsLike(t: Time, u: Time, s: int, v: int)
    requires t == s * SECOND && u == v * SECOND && Dated(s) && Dated(v)
    ensures SortsBefore(t, u) <==> Less(Text(s), Text(v))
  {
    WholeSeconds(s);
    WholeSeconds(v);
  }

  lemma WholeSeconds(s: int)
    ensures s * SECOND / SECOND == s
  {
  }

  lemma FarFutureSorts(expiry: Time, now: Time, s: int, v: int)
    requires expiry == s * SECOND && now == v * SECOND
    requires NEW_YEAR_10000 <= s < NEW_YEAR_10000 + DAY && NEW_YEAR_2026 <= v < NEW_YEAR_2026 + DAY
    ensures SortsBefore(expiry, now)
  {
    In2026(v);
    In10000(s);
    FarFutureText(s, v);
    SortsLike(expiry, now, s, v);
  }

  lemma WaitingFinish(q: Request, wait: nat, before: Order)
    requires q.vouched && before(q.ts + SKEW, q.ts + wait)
    ensures var late := q.ts + wait;
            TableApply(TableApply(TableApply(TableOnce(q, q.ts, [Held(q, q.ts)]), before, Tick(wait)), before,
              Purge(0)), before, Finish(0)).log
            == StalledLog(q, late)
  {
    var h, late := Held(q, q.ts), q.ts + wait;
    TableForgets(q, q.ts, late, [h], before);
    var l := TableApply(TableApply(TableOnce(q, q.ts, [h]), before, Tick(wait)), before, Purge(0));
    assert l.rows == map[] && l.pending == [h];
  }

  /** Under any order that ranks the expiry before a later clock, a copy that waits out the purge passes as well. */
  lemma WaitingCopyPasses(q: Request, wait: nat, before: Order)
    requires q.vouched && before(q.ts + SKEW, q.ts + wait)
    ensures TableRun(q.ts, before, StalledSteps(q, wait)).log == StalledLog(q, q.ts + wait)
  {
    var steps := StalledSteps(q, wait);
    TableOnceOfTwo(q, q.ts, before, steps);
    TableThreeMore(q.ts, before, steps, 3, TableOnce(q, q.ts, [Held(q, q.ts)]), Tick(wait), Purge(0), Finish(0));
    WaitingFinish(q, wait, before);
  }

  lemma SecondLater(expiry: Time)
    requires Ranked(expiry) && Ranked(expiry + SECOND)
    ensures SortsBefore(expiry, expiry + SECOND)
  {
    assert (expiry + SECOND) / SECOND == expiry / SECOND + 1;
    TextOrder(expiry / SECOND, expiry / SECOND + 1);
  }

  lemma SecondLaterIn2026(expiry: Time)
    requires NEW_YEAR_2026 * SECOND <= expiry < (NEW_YEAR_2026 + 600) * SECOND
    ensures SortsBefore(expiry, expiry + SECOND)
  {
    In2026(expiry / SECOND);
    In2026(expiry / SECOND + 1);
    assert (expiry + SECOND) / SECOND == expiry / SECOND + 1;
    SecondLater(expiry);
  }

  /** On New Year's Day 2026: a copy admitted with the request, but recorded after a purge a second past its expiry,
      passes as well. */
  lemma TableStalledCopyPasses(q: Request)
    requires q.vouched && q.ts == NEW_YEAR_2026 * SECOND
    ensures var late := q.ts + SKEW + SECOND;
            TableRun(q.ts, SortsBefore, [Admit(q), Admit(q), Finish(0), Tick(SKEW + SECOND), Purge(0), Finish(0)]).log
            == [Took(q.device, q.nonce, q.ts, q.ts, q.ts), Swept(late), Took(q.device, q.nonce, q.ts, q.ts, late)]
  {
    SecondLaterIn2026(q.ts + SKEW);
    WaitingCopyPasses(q, SKEW + SECOND, SortsBefore);
  }
}

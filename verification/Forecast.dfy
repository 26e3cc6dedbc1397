/**
 The storage forecast on the admin page (internal/api/stats.go over
 internal/store/stats.go): how the stored attachments drain, and where they
 settle if uploads keep coming. Times are whole Unix seconds in UTC.
 */
module Forecast {
  import opened Collections

  const DAY := 86400

  datatype Blob = Blob(size: nat, created: int, expires: int)
  datatype Bucket = Bucket(day: int, bytes: nat)
  datatype Point = Point(at: int, bytes: nat)

  datatype Projection = Projection(
    retentionDays: nat, inflowWindowDays: nat, inflowPerDay: nat, equilibrium: nat,
    drain: seq<Point>, withInflow: seq<Point>)

  /** The UTC date of an instant. */
  function DayOf(t: int): int {
    t / DAY
  }

  function Min(a: int, b: int): int {
    if a < b then a else b
  }

  // ---------------------------------------------------------------------
  // Sums over the blob table
  // ---------------------------------------------------------------------

  function Total(rows: seq<Blob>): nat {
    if rows == [] then 0 else Total(rows[..|rows| - 1]) + rows[|rows| - 1].size
  }

  /** Bytes whose expiry falls on the day or later. */
  function ExpiringFrom(rows: seq<Blob>, day: int): nat {
    if rows == [] then 0
    else
      var b := rows[|rows| - 1];
      ExpiringFrom(rows[..|rows| - 1], day) + if DayOf(b.expires) >= day then b.size else 0
  }

  function CreatedSince(rows: seq<Blob>, since: int): nat {
    if rows == [] then 0
    else
      var b := rows[|rows| - 1];
      CreatedSince(rows[..|rows| - 1], since) + if b.created >= since then b.size else 0
  }

  /** What an expiry sweep at an instant leaves. */
  function Swept(rows: seq<Blob>, now: int): seq<Blob> {
    if rows == [] then []
    else
      var b := rows[|rows| - 1];
      Swept(rows[..|rows| - 1], now) + if b.expires < now then [] else [b]
  }

  // ---------------------------------------------------------------------
  // The grouped query
  // ---------------------------------------------------------------------

  function FromBuckets(buckets: seq<Bucket>, day: int): nat {
    if buckets == [] then 0
    else
      var b := buckets[|buckets| - 1];
      FromBuckets(buckets[..|buckets| - 1], day) + if b.day >= day then b.bytes else 0
  }

  predicate Ascending(buckets: seq<Bucket>) {
    forall i, j :: 0 <= i < j < |buckets| ==> buckets[i].day < buckets[j].day
  }

  /** Adds one row to its day's bucket. */
  function Add(buckets: seq<Bucket>, day: int, size: nat): seq<Bucket> {
    if buckets == [] then [Bucket(day, size)]
    else
      var n := |buckets| - 1;
      var b := buckets[n];
      if b.day < day then buckets + [Bucket(day, size)]
      else if b.day == day then buckets[..n] + [Bucket(day, b.bytes + size)]
      else Add(buckets[..n], day, size) + [b]
  }

  function ExpiryBuckets(rows: seq<Blob>): seq<Bucket> {
    if rows == [] then []
    else
      var b := rows[|rows| - 1];
      Add(ExpiryBuckets(rows[..|rows| - 1]), DayOf(b.expires), b.size)
  }

  lemma FromBucketsNext(buckets: seq<Bucket>, b: Bucket, from: int)
    ensures FromBuckets(buckets + [b], from) == FromBuckets(buckets, from) + if b.day >= from then b.bytes else 0
  {
    assert (buckets + [b])[..|buckets|] == buckets;
  }

  lemma {:induction false} AddCounts(buckets: seq<Bucket>, day: int, size: nat, from: int)
    ensures FromBuckets(Add(buckets, day, size), from) == FromBuckets(buckets, from) + if day >= from then size else 0
  {
    if buckets == [] {
      FromBucketsNext([], Bucket(day, size), from);
      assert [] + [Bucket(day, size)] == [Bucket(day, size)];
    } else {
      var n := |buckets| - 1;
      var b := buckets[n];
      if b.day < day {
        FromBucketsNext(buckets, Bucket(day, size), from);
      } else if b.day == day {
        FromBucketsNext(buckets[..n], Bucket(day, b.bytes + size), from);
      } else {
        AddCounts(buckets[..n], day, size, from);
        FromBucketsNext(Add(buckets[..n], day, size), b, from);
      }
    }
  }

  predicate Below(buckets: seq<Bucket>, day: int) {
    forall i :: 0 <= i < |buckets| ==> buckets[i].day < day
  }

  lemma {:induction false} AddBelow(buckets: seq<Bucket>, day: int, size: nat, bound: int)
    requires Below(buckets, bound) && day < bound
    ensures Below(Add(buckets, day, size), bound)
  {
    if buckets != [] {
      AddBelow(buckets[..|buckets| - 1], day, size, bound);
    }
  }

  lemma {:induction false} AddAscends(buckets: seq<Bucket>, day: int, size: nat)
    requires Ascending(buckets)
    ensures Ascending(Add(buckets, day, size))
  {
    if buckets != [] {
      var n := |buckets| - 1;
      if buckets[n].day > day {
        AddAscends(buckets[..n], day, size);
        AddBelow(buckets[..n], day, size, buckets[n].day);
      }
    }
  }

  /** The grouped query: one bucket a day, in order, and grouping loses nothing. */
  lemma {:induction false} GroupingIsExact(rows: seq<Blob>, from: int)
    ensures FromBuckets(ExpiryBuckets(rows), from) == ExpiringFrom(rows, from)
    ensures Ascending(ExpiryBuckets(rows))
  {
    if rows != [] {
      var n := |rows| - 1;
      GroupingIsExact(rows[..n], from);
      AddCounts(ExpiryBuckets(rows[..n]), DayOf(rows[n].expires), rows[n].size, from);
      AddAscends(ExpiryBuckets(rows[..n]), DayOf(rows[n].expires), rows[n].size);
    }
  }

  // ---------------------------------------------------------------------
  // As the source does it
  // ---------------------------------------------------------------------

  method BytesStillStoredOn(buckets: seq<Bucket>, at: int) returns (remaining: nat)
    ensures remaining == FromBuckets(buckets, DayOf(at))
  {
    var day := DayOf(at);
    remaining := 0;
    for i := 0 to |buckets|
      invariant remaining == FromBuckets(buckets[..i], day)
    {
      assert buckets[..i + 1][..i] == buckets[..i];
      if buckets[i].day >= day {
        remaining := remaining + buckets[i].bytes;
      }
    }
    assert buckets[..|buckets|] == buckets;
  }

  /** Half the retention, between one day and seven. */
  function InflowWindow(retentionDays: nat): nat {
    if retentionDays / 2 > 7 then 7 else if retentionDays / 2 < 1 then 1 else retentionDays / 2
  }

  function InflowPerDay(rows: seq<Blob>, now: int, retentionDays: nat): nat {
    CreatedSince(rows, now - DAY * InflowWindow(retentionDays)) / InflowWindow(retentionDays)
  }

  /** The drain on a day: everything stored today, from tomorrow on what has not expired by that date. */
  function Remaining(rows: seq<Blob>, now: int, day: nat): nat {
    if day == 0 then Total(rows) else ExpiringFrom(rows, DayOf(now) + day)
  }

  lemma LaterDay(now: int, day: nat)
    ensures DayOf(now + DAY * day) == DayOf(now) + day
  {
  }

  function DrainPoint(rows: seq<Blob>, now: int, day: nat): Point {
    Point(now + DAY * day, Remaining(rows, now, day))
  }

  function InflowPoint(rows: seq<Blob>, now: int, perDay: nat, retentionDays: nat, day: nat): Point {
    Point(now + DAY * day, Remaining(rows, now, day) + Times(perDay, Min(day, retentionDays)))
  }

  function Times(a: nat, b: nat): nat {
    a * b
  }

  method StorageForecast(rows: seq<Blob>, now: int, retentionDays: int) returns (f: Option<Projection>)
    ensures f.None? <==> retentionDays <= 0
    ensures f.Some? ==> f.value.retentionDays == retentionDays && IsProjection(f.value, rows, now)
  {
    if retentionDays <= 0 {
      return None;
    }
    var buckets := ExpiryBuckets(rows);
    var window, perDay := MeasureInflow(rows, now, retentionDays);
    var drain, withInflow := [], [];
    for day := 0 to retentionDays + 2
      invariant |drain| == |withInflow| == day
      invariant forall d :: 0 <= d < day ==> drain[d] == DrainPoint(rows, now, d)
      invariant forall d :: 0 <= d < day ==> withInflow[d] == InflowPoint(rows, now, perDay, retentionDays, d)
    {
      var point, projected := ForecastDay(rows, buckets, now, perDay, retentionDays, day);
      drain := drain + [point];
      withInflow := withInflow + [projected];
    }
    return Some(Projection(retentionDays, window, perDay, Times(perDay, retentionDays), drain, withInflow));
  }

  method MeasureInflow(rows: seq<Blob>, now: int, retentionDays: nat) returns (window: nat, perDay: nat)
    ensures window == InflowWindow(retentionDays) && perDay == InflowPerDay(rows, now, retentionDays)
  {
    window := retentionDays / 2;
    if window > 7 {
      window := 7;
    }
    if window < 1 {
      window := 1;
    }
    perDay := CreatedSince(rows, now - DAY * window) / window;
  }

  /** One turn of the day loop. */
  method ForecastDay(rows: seq<Blob>, buckets: seq<Bucket>, now: int, perDay: nat, retentionDays: nat, day: nat)
    returns (point: Point, projected: Point)
    requires buckets == ExpiryBuckets(rows)
    ensures point == DrainPoint(rows, now, day) && projected == InflowPoint(rows, now, perDay, retentionDays, day)
  {
    var at := now + DAY * day;
    var remaining := Total(rows);
    if day > 0 {
      remaining := BytesStillStoredOn(buckets, at);
      LaterDay(now, day);
      GroupingIsExact(rows, DayOf(at));
    }
    var newDays := day;
    if newDays > retentionDays {
      newDays := retentionDays;
    }
    point := Point(at, remaining);
    projected := Point(at, remaining + Times(perDay, newDays));
  }

  predicate IsProjection(p: Projection, rows: seq<Blob>, now: int) {
    && p.inflowWindowDays == InflowWindow(p.retentionDays)
    && p.inflowPerDay == InflowPerDay(rows, now, p.retentionDays)
    && p.equilibrium == Times(p.inflowPerDay, p.retentionDays)
    && |p.drain| == |p.withInflow| == p.retentionDays + 2
    && (forall d :: 0 <= d < |p.drain| ==> p.drain[d] == DrainPoint(rows, now, d))
    && (forall d :: 0 <= d < |p.drain| ==>
       p.withInflow[d] == InflowPoint(rows, now, p.inflowPerDay, p.retentionDays, d))
  }

  // ---------------------------------------------------------------------
  // What the curves mean
  // ---------------------------------------------------------------------

  /** One consistent snapshot under a fixed retention: no row from the future, each kept the same number of days. */
  predicate FixedRetention(rows: seq<Blob>, now: int, retentionDays: nat) {
    forall b :: b in rows ==> b.created <= now && b.expires == b.created + DAY * retentionDays
  }

  lemma {:induction false} ExpiringShrinks(rows: seq<Blob>, from: int, to: int)
    requires from <= to
    ensures ExpiringFrom(rows, to) <= ExpiringFrom(rows, from) <= Total(rows)
  {
    if rows != [] {
      ExpiringShrinks(rows[..|rows| - 1], from, to);
    }
  }

  lemma {:induction false} NothingPastHorizon(rows: seq<Blob>, now: int, retentionDays: nat)
    requires FixedRetention(rows, now, retentionDays)
    ensures ExpiringFrom(rows, DayOf(now) + retentionDays + 1) == 0
  {
    if rows != [] {
      var n := |rows| - 1;
      assert rows[n] in rows && forall b :: b in rows[..n] ==> b in rows;
      NothingPastHorizon(rows[..n], now, retentionDays);
      LaterDay(rows[n].created, retentionDays);
    }
  }

  lemma RemainingFalls(rows: seq<Blob>, now: int, d: nat, e: nat)
    requires d <= e
    ensures Remaining(rows, now, e) <= Remaining(rows, now, d)
  {
    ExpiringShrinks(rows, DayOf(now) + d, DayOf(now) + e);
  }

  /** Of every projection of one consistent snapshot: the drain starts at what is stored, never rises and is zero at the
      horizon, and the curve with inflow ends exactly on the equilibrium. */
  lemma ProjectionShape(p: Projection, rows: seq<Blob>, now: int)
    requires IsProjection(p, rows, now) && FixedRetention(rows, now, p.retentionDays)
    ensures forall d :: 0 <= d < |p.drain| ==> p.drain[d].at == p.withInflow[d].at == now + DAY * d
    ensures p.drain[0] == Point(now, Total(rows))
    ensures forall d, e :: 0 <= d <= e < |p.drain| ==> p.drain[e].bytes <= p.drain[d].bytes
    ensures p.drain[|p.drain| - 1].bytes == 0
    ensures p.withInflow[|p.drain| - 1].bytes == p.equilibrium
  {
    forall d, e | 0 <= d <= e < |p.drain|
      ensures p.drain[e].bytes <= p.drain[d].bytes
    {
      RemainingFalls(rows, now, d, e);
    }
    NothingPastHorizon(rows, now, p.retentionDays);
  }

  lemma DayStarts(t: int, day: int)
    ensures t < DAY * day <==> DayOf(t) < day
  {
  }

  lemma {:induction false} SweptSum(rows: seq<Blob>, day: int)
    ensures Total(Swept(rows, DAY * day)) == ExpiringFrom(rows, day)
  {
    if rows != [] {
      var n := |rows| - 1;
      SweptSum(rows[..n], day);
      DayStarts(rows[n].expires, day);
      var kept := Swept(rows[..n], DAY * day);
      assert (kept + [rows[n]])[..|kept|] == kept && kept + [] == kept;
    }
  }

  /** Each later point is what an expiry sweep at the start of that UTC day leaves. */
  lemma DrainIsWhatSweepsLeave(rows: seq<Blob>, now: int, day: nat)
    requires day > 0
    ensures Remaining(rows, now, day) == Total(Swept(rows, DAY * (DayOf(now) + day)))
  {
    SweptSum(rows, DayOf(now) + day);
  }

  /** One upload of the daily rate on each of the next days. */
  function Uploads(now: int, perDay: nat, days: nat, retentionDays: nat): seq<Blob> {
    if days == 0 then []
    else
      var at := now + DAY * (days - 1);
      Uploads(now, perDay, days - 1, retentionDays) + [Blob(perDay, at, at + DAY * retentionDays)]
  }

  lemma {:induction false} ExpiringSum(rows: seq<Blob>, more: seq<Blob>, day: int)
    ensures ExpiringFrom(rows + more, day) == ExpiringFrom(rows, day) + ExpiringFrom(more, day)
  {
    if more == [] {
      assert rows + more == rows;
    } else {
      var n := |more| - 1;
      assert (rows + more)[..|rows| + n] == rows + more[..n];
      ExpiringSum(rows, more[..n], day);
    }
  }

  /** Of `days` daily uploads, the ones a day reaches back to. */
  lemma {:induction false} UploadsStillHere(now: int, perDay: nat, days: nat, retentionDays: nat, day: nat)
    requires days <= day
    ensures ExpiringFrom(Uploads(now, perDay, days, retentionDays), DayOf(now) + day)
            == perDay * (if days + retentionDays <= day then 0 else if day <= retentionDays then days
              else days + retentionDays - day)
  {
    if days > 0 {
      UploadsStillHere(now, perDay, days - 1, retentionDays, day);
      var before, all := Uploads(now, perDay, days - 1, retentionDays), Uploads(now, perDay, days, retentionDays);
      assert all[..|before|] == before;
      var last := all[|all| - 1];
      assert last.expires == now + DAY * (days - 1 + retentionDays);
      LaterDay(now, days - 1 + retentionDays);
      assert DayOf(last.expires) == DayOf(now) + (days - 1 + retentionDays);
      var k := if days - 1 + retentionDays <= day then 0 else if day <= retentionDays then days - 1
        else days - 1 + retentionDays - day;
      Distribute(perDay, k);
    }
  }

  lemma Distribute(a: nat, k: nat)
    ensures a * (k + 1) == a * k + a
  {
  }

  /** The with-inflow curve is the drain of the database that gains the daily rate on each day up to then. */
  lemma InflowIsSteadyUploads(rows: seq<Blob>, now: int, perDay: nat, retentionDays: nat, day: nat)
    requires day > 0
    ensures ExpiringFrom(rows + Uploads(now, perDay, day, retentionDays), DayOf(now) + day)
            == InflowPoint(rows, now, perDay, retentionDays, day).bytes
  {
    ExpiringSum(rows, Uploads(now, perDay, day, retentionDays), DayOf(now) + day);
    UploadsStillHere(now, perDay, day, retentionDays, day);
  }

  /** The window is the longest of at most seven days that fits twice into the retention, or else one day. */
  lemma WindowExactly(retentionDays: nat)
    ensures var w := InflowWindow(retentionDays);
            1 <= w <= 7 && (w > 1 ==> 2 * w <= retentionDays) && (w < 7 ==> retentionDays < 2 * (w + 1))
  {
  }

  /** One upload of the rate a day, the last one `ago` seconds back. */
  function PastUploads(now: int, rate: nat, days: nat, ago: nat, retentionDays: nat): seq<Blob> {
    if days == 0 then []
    else
      var at := now - ago - DAY * (days - 1);
      PastUploads(now, rate, days - 1, ago, retentionDays) + [Blob(rate, at, at + DAY * retentionDays)]
  }

  lemma {:induction false} PastSum(now: int, rate: nat, days: nat, ago: nat, retentionDays: nat, window: nat)
    requires ago < DAY
    ensures var counted := if ago == 0 then window + 1 else window;
            CreatedSince(PastUploads(now, rate, days, ago, retentionDays), now - DAY * window)
            == rate * if days <= counted then days else counted
  {
    if days > 0 {
      PastSum(now, rate, days - 1, ago, retentionDays, window);
      var before := PastUploads(now, rate, days - 1, ago, retentionDays);
      var all := PastUploads(now, rate, days, ago, retentionDays);
      assert all[..|before|] == before;
      var counted := if ago == 0 then window + 1 else window;
      Distribute(rate, if days - 1 <= counted then days - 1 else counted);
    }
  }

  /** A steady upload of one rate a day for longer than the window is measured as that rate, except that uploads at the
      snapshot's own second of the day are counted at both ends of the window. */
  lemma SteadyRateExactly(now: int, rate: nat, days: nat, ago: nat, retentionDays: nat)
    requires ago < DAY && days > InflowWindow(retentionDays)
    ensures var w := InflowWindow(retentionDays);
            InflowPerDay(PastUploads(now, rate, days, ago, retentionDays), now, retentionDays)
            == if ago == 0 then rate * (w + 1) / w else rate
  {
    var w := InflowWindow(retentionDays);
    PastSum(now, rate, days, ago, retentionDays, w);
    ExactQuotient(rate, w);
  }

  lemma ExactQuotient(a: nat, b: nat)
    requires 1 <= b <= 7
    ensures a * b / b == a
  {
    if b == 1 {
    } else if b == 2 {
    } else if b == 3 {
    } else if b == 4 {
    } else if b == 5 {
    } else if b == 6 {
    } else {
      assert b == 7;
    }
  }

  /** Nothing created inside the inflow window can have been swept, so the measured rate misses no upload. */
  lemma WindowIsUnexpired(b: Blob, now: int, retentionDays: nat)
    requires retentionDays >= 1 && b.expires == b.created + DAY * retentionDays
    requires b.created >= now - DAY * InflowWindow(retentionDays)
    ensures b.expires >= now
  {
  }

  lemma {:induction false} SweepKeepsTheRate(rows: seq<Blob>, now: int, retentionDays: nat)
    requires retentionDays >= 1 && forall b :: b in rows ==> b.expires == b.created + DAY * retentionDays
    ensures var since := now - DAY * InflowWindow(retentionDays);
            CreatedSince(Swept(rows, now), since) == CreatedSince(rows, since)
  {
    if rows != [] {
      var n := |rows| - 1;
      var since := now - DAY * InflowWindow(retentionDays);
      assert rows[n] in rows && forall b :: b in rows[..n] ==> b in rows;
      SweepKeepsTheRate(rows[..n], now, retentionDays);
      var kept := Swept(rows[..n], now);
      assert (kept + [rows[n]])[..|kept|] == kept && kept + [] == kept;
      if rows[n].created >= since {
        WindowIsUnexpired(rows[n], now, retentionDays);
      }
    }
  }
}

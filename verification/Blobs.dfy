/**
 Blob metadata (internal/store/blobs.go) and the recording half of an upload
 (internal/api/blobs.go): recipient claims, per-device quotas and the
 server-wide cap. A transaction is one atomic step; times are whole seconds, as
 stored.
 */
module Blobs {
  import opened Collections

  /** Blob and device ids, numbered; BLANK is the empty device id. */
  type BlobId = nat
  type DeviceId = nat

  const BLANK: DeviceId := 0

  datatype Row = Row(size: nat, expires: int)

  datatype Db = Db(rows: map<BlobId, Row>, claims: set<(BlobId, DeviceId)>, devices: set<DeviceId>)

  /** total == 0 disables the server-wide cap. */
  datatype Caps = Caps(maxBlobs: nat, maxBytes: nat, total: nat)

  // ---------------------------------------------------------------------
  // Sums over blobs
  // ---------------------------------------------------------------------

  ghost function Sum(rows: map<BlobId, Row>, ids: set<BlobId>): nat
    requires ids <= rows.Keys
  {
    if ids == {} then 0
    else
      var b :| b in ids;
      rows[b].size + Sum(rows, ids - {b})
  }

  lemma {:induction false} SumRemove(rows: map<BlobId, Row>, ids: set<BlobId>, b: BlobId)
    requires ids <= rows.Keys && b in ids
    ensures Sum(rows, ids) == rows[b].size + Sum(rows, ids - {b})
    decreases |ids|
  {
    var c :| c in ids && Sum(rows, ids) == rows[c].size + Sum(rows, ids - {c});
    if c != b {
      SumRemove(rows, ids - {c}, b);
      SumRemove(rows, ids - {b}, c);
      assert ids - {c} - {b} == ids - {b} - {c};
    }
  }

  /** A sub-table sums to no more. */
  lemma {:induction false} SumMonotone(rows: map<BlobId, Row>, ids: set<BlobId>, rows': map<BlobId, Row>,
                                       ids': set<BlobId>)
    requires ids <= rows.Keys && ids' <= rows'.Keys && ids <= ids'
    requires forall b :: b in ids ==> rows[b] == rows'[b]
    ensures Sum(rows, ids) <= Sum(rows', ids')
    ensures ids == ids' ==> Sum(rows, ids) == Sum(rows', ids')
    decreases |ids'|
  {
    if ids' != {} {
      var b :| b in ids';
      SumRemove(rows', ids', b);
      if b in ids {
        SumRemove(rows, ids, b);
        SumMonotone(rows, ids - {b}, rows', ids' - {b});
      } else {
        SumMonotone(rows, ids, rows', ids' - {b});
      }
    }
  }

  lemma SumInsert(rows: map<BlobId, Row>, ids: set<BlobId>, b: BlobId, row: Row)
    requires ids <= rows.Keys && b !in rows
    ensures Sum(rows[b := row], ids + {b}) == Sum(rows, ids) + row.size
  {
    SumRemove(rows[b := row], ids + {b}, b);
    assert (ids + {b}) - {b} == ids;
    SumMonotone(rows[b := row], ids, rows, ids);
  }

  // ---------------------------------------------------------------------
  // Usage and caps
  // ---------------------------------------------------------------------

  function Held(db: Db, d: DeviceId): set<BlobId> {
    set c | c in db.claims && c.1 == d :: c.0
  }

  /** Every claim names a blob row, as the foreign key demands. */
  ghost predicate Integrity(db: Db) {
    forall c :: c in db.claims ==> c.0 in db.rows
  }

  lemma HeldHaveRows(db: Db, d: DeviceId)
    requires Integrity(db)
    ensures Held(db, d) <= db.rows.Keys
  {
  }

  ghost predicate CapsHold(db: Db, caps: Caps) {
    && Integrity(db)
    && (caps.total > 0 ==> Sum(db.rows, db.rows.Keys) <= caps.total)
    && forall d :: |Held(db, d)| <= caps.maxBlobs && DeviceBytes(db, d) <= caps.maxBytes
  }

  ghost function DeviceBytes(db: Db, d: DeviceId): nat
    requires Integrity(db)
  {
    HeldHaveRows(db, d);
    Sum(db.rows, Held(db, d))
  }

  /** db' keeps only some of the rows and claims of db, and changes none of them. */
  ghost predicate Shrinks(db: Db, db': Db) {
    && db'.claims <= db.claims && db'.rows.Keys <= db.rows.Keys
    && forall b :: b in db'.rows ==> db'.rows[b] == db.rows[b]
  }

  lemma ShrinkKeepsCaps(db: Db, db': Db, caps: Caps)
    requires CapsHold(db, caps) && Shrinks(db, db') && Integrity(db')
    ensures CapsHold(db', caps)
  {
    SumMonotone(db'.rows, db'.rows.Keys, db.rows, db.rows.Keys);
    forall d ensures |Held(db', d)| <= caps.maxBlobs && DeviceBytes(db', d) <= caps.maxBytes {
      HeldHaveRows(db, d);
      HeldHaveRows(db', d);
      assert Held(db', d) <= Held(db, d);
      SubsetSize(Held(db', d), Held(db, d));
      SumMonotone(db'.rows, Held(db', d), db.rows, Held(db, d));
    }
  }

  // ---------------------------------------------------------------------
  // Recording an upload
  // ---------------------------------------------------------------------

  ghost predicate FitsQuota(db: Db, d: DeviceId, size: nat, caps: Caps)
    requires Integrity(db)
  {
    |Held(db, d)| < caps.maxBlobs && DeviceBytes(db, d) + size <= caps.maxBytes
  }

  /** The candidates that still fit (keep) or no longer do, in the order they were named. */
  ghost function Select(db: Db, candidates: seq<DeviceId>, size: nat, caps: Caps, keep: bool): (r: seq<DeviceId>)
    requires Integrity(db)
    ensures forall d :: d in r <==> d in candidates && FitsQuota(db, d, size, caps) == keep
  {
    if candidates == [] then []
    else
      var n := |candidates| - 1;
      Select(db, candidates[..n], size, caps, keep)
      + (if FitsQuota(db, candidates[n], size, caps) == keep then [candidates[n]] else [])
  }

  datatype RecordOutcome =
    | Recorded(stored: seq<DeviceId>, refused: seq<DeviceId>)
    | StorageFull
    | RecordFailed

  function ClaimsOf(id: BlobId, stored: seq<DeviceId>): set<(BlobId, DeviceId)> {
    set d | d in stored :: (id, d)
  }

  /** A row and its claims go in only if the keys are new and every device exists. */
  ghost predicate Insertable(db: Db, id: BlobId, stored: seq<DeviceId>) {
    id !in db.rows && Distinct(stored) && forall d :: d in stored ==> d in db.devices
  }

  ghost function Record(db: Db, id: BlobId, row: Row, candidates: seq<DeviceId>, caps: Caps): (r: (Db, RecordOutcome))
    requires Integrity(db)
  {
    if caps.total > 0 && Sum(db.rows, db.rows.Keys) + row.size > caps.total then (db, StorageFull)
    else
      var stored := Select(db, candidates, row.size, caps, true);
      var refused := Select(db, candidates, row.size, caps, false);
      if stored == [] then (db, Recorded([], refused))
      else if !Insertable(db, id, stored) then (db, RecordFailed)
      else
        (db.(rows := db.rows[id := row], claims := db.claims + ClaimsOf(id, stored)), Recorded(stored, refused))
  }

  lemma HeldAfterInsert(db: Db, id: BlobId, row: Row, stored: seq<DeviceId>, d: DeviceId)
    requires Integrity(db) && id !in db.rows
    ensures var db' := db.(rows := db.rows[id := row], claims := db.claims + ClaimsOf(id, stored));
            Held(db', d) == if d in stored then Held(db, d) + {id} else Held(db, d)
    ensures id !in Held(db, d)
  {
    var db' := db.(rows := db.rows[id := row], claims := db.claims + ClaimsOf(id, stored));
    forall b | b in Held(db, d) ensures b in Held(db', d) {
      assert (b, d) in db'.claims;
    }
    if d in stored {
      assert (id, d) in db'.claims;
    }
  }

  /** However stale the pre-flight answers were, committing keeps every cap. */
  lemma RecordKeepsCaps(db: Db, id: BlobId, row: Row, candidates: seq<DeviceId>, caps: Caps)
    requires CapsHold(db, caps)
    ensures CapsHold(Record(db, id, row, candidates, caps).0, caps)
  {
    var (db', outcome) := Record(db, id, row, candidates, caps);
    if db' != db {
      var stored := Select(db, candidates, row.size, caps, true);
      SumInsert(db.rows, db.rows.Keys, id, row);
      assert db'.rows.Keys == db.rows.Keys + {id};
      forall d ensures |Held(db', d)| <= caps.maxBlobs && DeviceBytes(db', d) <= caps.maxBytes {
        HeldHaveRows(db, d);
        HeldAfterInsert(db, id, row, stored, d);
        if d in stored {
          SumInsert(db.rows, Held(db, d), id, row);
        } else {
          SumMonotone(db'.rows, Held(db, d), db.rows, Held(db, d));
        }
      }
    }
  }

  lemma {:induction false} SelectExactly(db: Db, candidates: seq<DeviceId>, size: nat, caps: Caps, keep: bool)
    requires Integrity(db)
    ensures var r := Select(db, candidates, size, caps, keep);
            && (forall d :: d in r <==> d in candidates && FitsQuota(db, d, size, caps) == keep)
            && (Distinct(candidates) ==> Distinct(r))
  {
    if candidates != [] {
      var n := |candidates| - 1;
      SelectExactly(db, candidates[..n], size, caps, keep);
      assert candidates == candidates[..n] + [candidates[n]];
    }
  }

  /** For a new id and distinct, existing candidates: the upload is refused exactly if the server-wide cap is passed;
      else exactly the candidates with room are claimed for, and nothing else changes. */
  lemma RecordExactly(db: Db, id: BlobId, row: Row, candidates: seq<DeviceId>, caps: Caps)
    requires Integrity(db) && id !in db.rows && Distinct(candidates) && forall d :: d in candidates ==> d in db.devices
    ensures var (db', outcome) := Record(db, id, row, candidates, caps);
            if caps.total > 0 && Sum(db.rows, db.rows.Keys) + row.size > caps.total then
              outcome == StorageFull && db' == db
            else
              && outcome.Recorded? && db'.devices == db.devices
              && (forall d :: d in outcome.stored <==>
                    && d in candidates && |Held(db, d)| < caps.maxBlobs
                    && DeviceBytes(db, d) + row.size <= caps.maxBytes)
              && (forall d :: d in outcome.refused <==> d in candidates && d !in outcome.stored)
              && (forall c :: c in db'.claims <==> c in db.claims || (c.0 == id && c.1 in outcome.stored))
              && db'.rows == if outcome.stored == [] then db.rows else db.rows[id := row]
  {
    SelectExactly(db, candidates, row.size, caps, true);
    SelectExactly(db, candidates, row.size, caps, false);
  }

  /** A commit fails, with nothing changed, exactly if the id is taken or a device to be stored is unknown or named
      twice. */
  lemma RecordFailsExactly(db: Db, id: BlobId, row: Row, candidates: seq<DeviceId>, caps: Caps)
    requires Integrity(db)
    ensures var (db', outcome) := Record(db, id, row, candidates, caps);
            var stored := Select(db, candidates, row.size, caps, true);
            && (outcome.RecordFailed? ==> db' == db)
            && (outcome.RecordFailed? <==>
                  && !(caps.total > 0 && Sum(db.rows, db.rows.Keys) + row.size > caps.total) && stored != []
                  && (id in db.rows || !Distinct(stored) || exists d :: d in stored && d !in db.devices))
  {
  }

  // ---------------------------------------------------------------------
  // The tables, as the source updates them
  // ---------------------------------------------------------------------

  datatype DeleteOutcome = NotFound | Released | Unreferenced

  class BlobTable {
    var rows: map<BlobId, Row>
    var claims: set<(BlobId, DeviceId)>
    var devices: set<DeviceId>

    function Value(): Db
      reads this
    {
      Db(rows, claims, devices)
    }

    constructor ()
      ensures Value() == Db(map[], {}, {})
    {
      rows, claims, devices := map[], {}, {};
    }

    method BlobUsage(d: DeviceId) returns (count: nat, totalBytes: nat)
      requires Integrity(Value())
      ensures count == |Held(Value(), d)| && totalBytes == DeviceBytes(Value(), d)
    {
      HeldHaveRows(Value(), d);
      var held := Held(Value(), d);
      count := |held|;
      totalBytes := AddSizes(held);
    }

    method TotalBlobBytes() returns (total: nat)
      ensures total == Sum(rows, rows.Keys)
    {
      total := AddSizes(rows.Keys);
    }

    method AddSizes(ids: set<BlobId>) returns (total: nat)
      requires ids <= rows.Keys
      ensures total == Sum(rows, ids)
    {
      total := 0;
      var rest := ids;
      while rest != {}
        invariant rest <= ids && total + Sum(rows, rest) == Sum(rows, ids)
        decreases |rest|
      {
        var b :| b in rest;
        SumRemove(rows, rest, b);
        total := total + rows[b].size;
        rest := rest - {b};
      }
    }

    /** Inserts the row, then one claim per recipient; a violated key rolls everything back. */
    method CreateBlob(id: BlobId, row: Row, recipients: seq<DeviceId>) returns (ok: bool)
      modifies this
      ensures ok == (recipients != [] && Insertable(old(Value()), id, recipients))
      ensures ok ==>
                Value() == old(Value()).(rows := old(rows)[id := row], claims := old(claims) + ClaimsOf(id, recipients))
      ensures !ok ==> Value() == old(Value())
    {
      if recipients == [] || id in rows {
        return false;
      }
      var added := {};
      for i := 0 to |recipients|
        invariant added == ClaimsOf(id, recipients[..i])
        invariant Distinct(recipients[..i]) && forall d :: d in recipients[..i] ==> d in devices
        invariant Value() == old(Value())
      {
        assert (id, recipients[i]) in added <==> recipients[i] in recipients[..i];
        if (id, recipients[i]) in added || recipients[i] !in devices {
          assert recipients[i] in recipients;
          return false;
        }
        assert recipients[..i + 1] == recipients[..i] + [recipients[i]];
        added := added + {(id, recipients[i])};
      }
      assert recipients[..|recipients|] == recipients;
      rows := rows[id := row];
      claims := claims + added;
      return true;
    }

    method CreateBlobWithQuota(id: BlobId, row: Row, candidates: seq<DeviceId>, caps: Caps)
      returns (outcome: RecordOutcome)
      requires Integrity(Value())
      modifies this
      ensures (Value(), outcome) == Record(old(Value()), id, row, candidates, caps.(total := 0))
    {
      var stored, refused: seq<DeviceId> := [], [];
      for i := 0 to |candidates|
        invariant Value() == old(Value())
        invariant stored == Select(Value(), candidates[..i], row.size, caps, true)
        invariant refused == Select(Value(), candidates[..i], row.size, caps, false)
      {
        assert candidates[..i + 1][..i] == candidates[..i];
        var count, totalBytes := BlobUsage(candidates[i]);
        if count >= caps.maxBlobs || totalBytes + row.size > caps.maxBytes {
          refused := refused + [candidates[i]];
        } else {
          stored := stored + [candidates[i]];
        }
      }
      assert candidates[..|candidates|] == candidates;
      SelectIgnoresTotal(Value(), candidates, row.size, caps, true);
      SelectIgnoresTotal(Value(), candidates, row.size, caps, false);
      if stored == [] {
        return Recorded([], refused);
      }
      var ok := CreateBlob(id, row, stored);
      return if ok then Recorded(stored, refused) else RecordFailed;
    }

    method RecordBlobWithQuota(id: BlobId, row: Row, candidates: seq<DeviceId>, caps: Caps)
      returns (outcome: RecordOutcome)
      requires Integrity(Value())
      modifies this
      ensures (Value(), outcome) == Record(old(Value()), id, row, candidates, caps)
    {
      if caps.total > 0 {
        var total := TotalBlobBytes();
        if total + row.size > caps.total {
          return StorageFull;
        }
      }
      SelectIgnoresTotal(Value(), candidates, row.size, caps, true);
      SelectIgnoresTotal(Value(), candidates, row.size, caps, false);
      outcome := CreateBlobWithQuota(id, row, candidates, caps);
    }

    method DeleteBlobForDevice(id: BlobId, d: DeviceId) returns (outcome: DeleteOutcome)
      modifies this
      ensures (Value(), outcome) == Release(old(Value()), id, d)
    {
      if (id, d) !in claims {
        return NotFound;
      }
      claims := claims - {(id, d)};
      if exists c :: c in claims && c.0 == id {
        return Released;
      }
      rows := rows - {id};
      return Unreferenced;
    }
  }

  lemma {:induction false} SelectIgnoresTotal(db: Db, candidates: seq<DeviceId>, size: nat, caps: Caps, keep: bool)
    requires Integrity(db)
    ensures Select(db, candidates, size, caps.(total := 0), keep) == Select(db, candidates, size, caps, keep)
  {
    if candidates != [] {
      SelectIgnoresTotal(db, candidates[..|candidates| - 1], size, caps, keep);
    }
  }

  predicate Claimed(db: Db, id: BlobId) {
    exists c :: c in db.claims && c.0 == id
  }

  /** One recipient drops its claim; the row goes with the last one. */
  function Release(db: Db, id: BlobId, d: DeviceId): (r: (Db, DeleteOutcome)) {
    if (id, d) !in db.claims then (db, NotFound)
    else
      var left := db.(claims := db.claims - {(id, d)});
      if Claimed(left, id) then (left, Released) else (left.(rows := left.rows - {id}), Unreferenced)
  }

  // ---------------------------------------------------------------------
  // Per-recipient outcomes of an upload
  // ---------------------------------------------------------------------

  datatype Outcome = Stored | UnknownRecipient | QuotaExceeded | InternalError

  datatype Response =
    | Answered(blobStored: bool, outcomes: seq<Outcome>)
    | Refused507
    | Refused500
    | Refused413
    | Refused400

  /** What writing the body to disk came to; every failure has removed its temporary file. */
  datatype PutOutcome = PutDone | TooLarge | DigestMismatch | PutFailed

  /** parseBlobRecipients: drop repeats, refuse empty names, an empty list or too many. */
  method ParseRecipients(values: seq<DeviceId>, maxRecipients: nat) returns (ok: bool, ids: seq<DeviceId>)
    ensures ok ==> Distinct(ids) && 0 < |ids| <= maxRecipients && forall d :: d in ids <==> d in values
    ensures !ok <==> values == [] || BLANK in values || |Elems(values)| > maxRecipients
  {
    ids := [];
    for i := 0 to |values|
      invariant Distinct(ids) && forall d :: d in ids <==> d in values[..i]
      invariant BLANK !in values[..i]
    {
      assert values[..i + 1] == values[..i] + [values[i]];
      if values[i] == BLANK {
        return false, [];
      }
      if values[i] !in ids {
        ids := ids + [values[i]];
      }
    }
    assert values[..|values|] == values;
    DistinctSize(ids);
    assert Elems(values) == Elems(ids);
    assert values != [] ==> values[0] in ids;
    if |ids| == 0 {
      return false, [];
    }
    if |ids| > maxRecipients {
      return false, [];
    }
    return true, ids;
  }

  /** The recipients whose pre-flight check passed. */
  function Accepted(recipients: seq<DeviceId>, preflight: seq<Outcome>): (r: seq<DeviceId>)
    requires |recipients| == |preflight|
  {
    if recipients == [] then []
    else
      var n := |recipients| - 1;
      Accepted(recipients[..n], preflight[..n]) + (if preflight[n] == Stored then [recipients[n]] else [])
  }

  lemma {:induction false} AcceptedIndex(recipients: seq<DeviceId>, preflight: seq<Outcome>, i: nat)
    requires |recipients| == |preflight| && Distinct(recipients) && i < |recipients|
    ensures recipients[i] in Accepted(recipients, preflight) <==> preflight[i] == Stored
  {
    var n := |recipients| - 1;
    AcceptedMembers(recipients[..n], preflight[..n]);
    if i < n {
      AcceptedIndex(recipients[..n], preflight[..n], i);
    }
  }

  lemma {:induction false} AcceptedMembers(recipients: seq<DeviceId>, preflight: seq<Outcome>)
    requires |recipients| == |preflight|
    ensures forall d :: d in Accepted(recipients, preflight) ==> d in recipients
  {
    if recipients != [] {
      var n := |recipients| - 1;
      AcceptedMembers(recipients[..n], preflight[..n]);
    }
  }

  method CollectAccepted(recipients: seq<DeviceId>, preflight: seq<Outcome>) returns (candidates: seq<DeviceId>)
    requires |recipients| == |preflight|
    ensures candidates == Accepted(recipients, preflight)
  {
    candidates := [];
    for i := 0 to |recipients|
      invariant candidates == Accepted(recipients[..i], preflight[..i])
    {
      assert recipients[..i + 1][..i] == recipients[..i] && preflight[..i + 1][..i] == preflight[..i];
      if preflight[i] == Stored {
        candidates := candidates + [recipients[i]];
      }
    }
    assert recipients[..|recipients|] == recipients && preflight[..|preflight|] == preflight;
  }

  /** Whoever the transaction refused is reported over quota. */
  method MarkRefused(recipients: seq<DeviceId>, preflight: seq<Outcome>, refused: seq<DeviceId>)
    returns (outcomes: seq<Outcome>)
    requires |recipients| == |preflight|
    ensures |outcomes| == |recipients|
    ensures forall j :: 0 <= j < |recipients| ==>
              outcomes[j] == if preflight[j] == Stored && recipients[j] in refused then QuotaExceeded else preflight[j]
  {
    outcomes := preflight;
    for i := 0 to |recipients|
      invariant |outcomes| == |recipients|
      invariant forall j :: i <= j < |recipients| ==> outcomes[j] == preflight[j]
      invariant forall j :: 0 <= j < i ==>
                  outcomes[j] == if preflight[j] == Stored && recipients[j] in refused then QuotaExceeded
                    else preflight[j]
    {
      if preflight[i] == Stored && recipients[i] in refused {
        outcomes := outcomes[i := QuotaExceeded];
      }
    }
  }

  /**
   storeUploadedBlob around the bytes, which reach the disk only if a pre-flight
   check passed. preflight holds the answers of checks made at any earlier time; a
   recipient is reported stored exactly when its claim was committed, and the file
   stays exactly when one was. put is what became of the bytes.
   */
  method FinishUpload(table: BlobTable, id: BlobId, row: Row, recipients: seq<DeviceId>, preflight: seq<Outcome>,
                      put: PutOutcome, caps: Caps)
    returns (response: Response, keepFile: bool)
    requires Integrity(table.Value()) && id !in table.rows
    requires |recipients| == |preflight| && Distinct(recipients)
    modifies table
    ensures put.PutDone? ==>
              table.Value() == Record(old(table.Value()), id, row, Accepted(recipients, preflight), caps).0
    ensures !put.PutDone? ==> table.Value() == old(table.Value())
    ensures response.Answered? <== Accepted(recipients, preflight) == []
    ensures response.Refused413? <==> Accepted(recipients, preflight) != [] && put.TooLarge?
    ensures response.Refused400? <==> Accepted(recipients, preflight) != [] && put.DigestMismatch?
    ensures response.Answered? ==>
              && |response.outcomes| == |recipients|
              && forall i :: 0 <= i < |recipients| ==>
                   (response.outcomes[i] == Stored <==> (id, recipients[i]) in table.claims)
    ensures !response.Answered? ==> table.Value() == old(table.Value())
    ensures keepFile <==> id in table.rows
    ensures response.Answered? ==> response.blobStored == keepFile
  {
    var candidates := CollectAccepted(recipients, preflight);
    ghost var before := table.Value();
    if candidates == [] {
      forall i | 0 <= i < |recipients|
        ensures preflight[i] == Stored <==> (id, recipients[i]) in table.claims
      {
        AcceptedIndex(recipients, preflight, i);
      }
      return Answered(false, preflight), false;
    }
    match put {
      case TooLarge => return Refused413, false;
      case DigestMismatch => return Refused400, false;
      case PutFailed => return Refused500, false;
      case PutDone =>
    }
    var recorded := table.RecordBlobWithQuota(id, row, candidates, caps);
    if recorded.StorageFull? {
      return Refused507, false;
    }
    if recorded.RecordFailed? {
      return Refused500, false;
    }
    var outcomes := MarkRefused(recipients, preflight, recorded.refused);
    forall i | 0 <= i < |recipients|
      ensures outcomes[i] == Stored <==> (id, recipients[i]) in table.claims
    {
      AcceptedIndex(recipients, preflight, i);
      ClaimCommitted(before, id, row, candidates, caps, recipients[i]);
    }
    return Answered(recorded.stored != [], outcomes), recorded.stored != [];
  }

  /** A committed upload claims exactly the candidates that were not refused. */
  lemma ClaimCommitted(db: Db, id: BlobId, row: Row, candidates: seq<DeviceId>, caps: Caps, d: DeviceId)
    requires Integrity(db) && id !in db.rows && Record(db, id, row, candidates, caps).1.Recorded?
    ensures var (db', outcome) := Record(db, id, row, candidates, caps);
            && ((id, d) in db'.claims <==> d in candidates && d !in outcome.refused)
            && (id in db'.rows <==> outcome.stored != [])
  {
    var (db', outcome) := Record(db, id, row, candidates, caps);
    assert (id, d) !in db.claims;
    assert d in outcome.stored <==> d in candidates && d !in outcome.refused;
  }
}

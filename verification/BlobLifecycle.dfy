/**
 Rows and files of the blob transport over whole runs: uploads
 (internal/blobstore/blobstore.go, internal/api/blobs.go), claim deletes,
 device removals, the cleanup ticker (cmd/server/main.go) and crashes, in any
 interleaving. Every step below is one file operation or one transaction.
 */
module BlobLifecycle {
  import opened Blobs

  datatype Phase = Writing | Written

  /**
   Durable state: db, files and the clock. Volatile state: uploads in progress,
   files a request still has to unlink, blobs a sweep has listed (listed) or
   whose file it has unlinked already (unlinked), and orphan files found.
   used holds every id ever drawn; ids are 32 random bytes and never repeat.
   */
  datatype Server = Server(
    db: Db, files: set<BlobId>, now: int,
    uploads: map<BlobId, Phase>, removals: set<BlobId>,
    listed: set<BlobId>, unlinked: set<BlobId>, orphans: set<BlobId>,
    used: set<BlobId>)

  datatype Step =
    | BeginUpload(id: BlobId)
    | PutFails(id: BlobId)
    | PutRenames(id: BlobId)
    | Commit(id: BlobId, row: Row, candidates: seq<DeviceId>)
    | RemoveFile(id: BlobId, ok: bool)
    | DeleteClaim(id: BlobId, device: DeviceId)
    | AddDevice(device: DeviceId)
    | RemoveDevice(device: DeviceId)
    | Tick(seconds: nat)
    | ListExpired(batch: set<BlobId>)
    | ListUnreferenced(batch: set<BlobId>)
    | SweepFile(id: BlobId, ok: bool)
    | SweepRow(id: BlobId, ok: bool)
    | OrphanCheck(id: BlobId)
    | OrphanRemove(id: BlobId)
    | Crash

  /** ON DELETE CASCADE from the device to its claims. */
  function DropDevice(db: Db, device: DeviceId): Db {
    db.(devices := db.devices - {device}, claims := set c | c in db.claims && c.1 != device)
  }

  /** ON DELETE CASCADE from the blob to its claims. */
  function DropBlob(db: Db, id: BlobId): Db {
    db.(rows := db.rows - {id}, claims := set c | c in db.claims && c.0 != id)
  }

  predicate Expired(s: Server, id: BlobId) {
    id in s.db.rows && s.db.rows[id].expires < s.now
  }

  ghost function Apply(s: Server, caps: Caps, step: Step): Server
    requires Integrity(s.db)
  {
    match step
    case BeginUpload(id) =>
      if id in s.used then s
      else s.(uploads := s.uploads[id := Writing], used := s.used + {id})
    case PutFails(id) =>
      if id in s.uploads && s.uploads[id] == Writing then s.(uploads := s.uploads - {id}) else s
    case PutRenames(id) =>
      if id in s.uploads && s.uploads[id] == Writing
      then s.(uploads := s.uploads[id := Written], files := s.files + {id}) else s
    case Commit(id, row, candidates) =>
      if id in s.uploads && s.uploads[id] == Written then
        var (db, outcome) := Record(s.db, id, row, candidates, caps);
        s.(db := db, uploads := s.uploads - {id},
           removals := if outcome.Recorded? && outcome.stored != [] then s.removals else s.removals + {id})
      else s
    case RemoveFile(id, ok) =>
      if id in s.removals
      then s.(files := if ok then s.files - {id} else s.files, removals := s.removals - {id}) else s
    case DeleteClaim(id, device) =>
      var (db, outcome) := Release(s.db, id, device);
      s.(db := db, removals := if outcome.Unreferenced? then s.removals + {id} else s.removals)
    case AddDevice(device) => s.(db := s.db.(devices := s.db.devices + {device}))
    case RemoveDevice(device) => s.(db := DropDevice(s.db, device))
    case Tick(seconds) => s.(now := s.now + seconds)
    case ListExpired(batch) => s.(listed := s.listed + set id | id in batch && Expired(s, id))
    case ListUnreferenced(batch) =>
      s.(listed := s.listed + set id | id in batch && id in s.db.rows && !Claimed(s.db, id))
    case SweepFile(id, ok) =>
      if id !in s.listed then s
      else if ok then s.(files := s.files - {id}, listed := s.listed - {id}, unlinked := s.unlinked + {id})
      else s.(listed := s.listed - {id})
    case SweepRow(id, ok) =>
      if id !in s.unlinked then s
      else s.(db := if ok then DropBlob(s.db, id) else s.db, unlinked := s.unlinked - {id})
    case OrphanCheck(id) =>
      if id in s.files && id !in s.db.rows then s.(orphans := s.orphans + {id}) else s
    case OrphanRemove(id) =>
      if id in s.orphans then s.(files := s.files - {id}, orphans := s.orphans - {id}) else s
    case Crash => s.(uploads := map[], removals := {}, listed := {}, unlinked := {}, orphans := {})
  }

  /** The promise: a recipient of an unexpired blob finds its bytes. */
  ghost predicate BytesBehindRows(s: Server) {
    forall id :: Wanted(s, id) ==> id in s.files
  }

  predicate Wanted(s: Server, id: BlobId) {
    id in s.db.rows && !Expired(s, id) && Claimed(s.db, id)
  }

  // ---------------------------------------------------------------------
  // What the orphan sweep can get wrong
  // ---------------------------------------------------------------------

  /** Between an upload's rename and its commit. */
  predicate InWindow(s: Server, id: BlobId) {
    id in s.uploads && s.uploads[id] == Written
  }

  /** Files found as orphans inside the window of their own upload, by a sweep that is still running. */
  function SuspectsAfter(s: Server, suspects: set<BlobId>, step: Step): set<BlobId> {
    match step
    case OrphanCheck(id) => if id in s.files && InWindow(s, id) then suspects + {id} else suspects
    case OrphanRemove(id) => suspects - {id}
    case Crash => {}
    case _ => suspects
  }

  /** Of those, the ones the sweep went on to unlink. */
  function LostAfter(suspects: set<BlobId>, lost: set<BlobId>, step: Step): set<BlobId> {
    if step.OrphanRemove? && step.id in suspects then lost + {step.id} else lost
  }

  predicate Known(s: Server, suspects: set<BlobId>, lost: set<BlobId>, id: BlobId) {
    || id in s.db.rows || id in s.files || id in s.uploads || id in s.removals || id in s.listed || id in s.unlinked
    || id in s.orphans || id in suspects || id in lost
  }

  /** What holds of one blob: in particular its file is there exactly if the sweep did not take it. */
  predicate BlobOk(s: Server, suspects: set<BlobId>, lost: set<BlobId>, id: BlobId) {
    && (Known(s, suspects, lost, id) ==> id in s.used)
    && (id in s.uploads ==> id !in s.db.rows)
    && (InWindow(s, id) ==> (id in s.files <==> id !in lost))
    && (id in s.uploads && s.uploads[id] == Writing ==> id !in s.files && id !in lost && id !in s.orphans)
    && (id in s.removals ==> id !in s.uploads && id !in s.db.rows)
    && (id in suspects ==> id in s.orphans)
    && (id in s.orphans && id !in suspects ==> id !in s.uploads && id !in s.db.rows)
    && (id in s.listed || id in s.unlinked ==> id !in s.uploads && !Wanted(s, id))
    && (id in s.unlinked ==> id !in s.files)
    && (Wanted(s, id) ==> (id in s.files <==> id !in lost))
  }

  ghost predicate Inv(s: Server, caps: Caps, suspects: set<BlobId>, lost: set<BlobId>) {
    CapsHold(s.db, caps) && forall id :: BlobOk(s, suspects, lost, id)
  }

  function Start(now: int): Server {
    Server(Db(map[], {}, {}), {}, now, map[], {}, {}, {}, {}, {})
  }

  // ---------------------------------------------------------------------
  // Every step keeps the invariant
  // ---------------------------------------------------------------------

  lemma ShrinkClaims(db: Db, db': Db, id: BlobId)
    requires Shrinks(db, db')
    ensures Claimed(db', id) ==> Claimed(db, id)
  {
    if Claimed(db', id) {
      var c :| c in db'.claims && c.0 == id;
      assert c in db.claims;
    }
  }

  /** Removing rows or claims never makes a blob wanted again. */
  lemma ShrinkKeeps(s: Server, db: Db, caps: Caps, suspects: set<BlobId>, lost: set<BlobId>)
    requires Inv(s, caps, suspects, lost) && Shrinks(s.db, db) && Integrity(db)
    ensures Inv(s.(db := db), caps, suspects, lost)
  {
    ShrinkKeepsCaps(s.db, db, caps);
    forall id ensures BlobOk(s.(db := db), suspects, lost, id) {
      assert BlobOk(s, suspects, lost, id);
      ShrinkClaims(s.db, db, id);
    }
  }

  lemma ReleaseShrinks(db: Db, id: BlobId, device: DeviceId)
    requires Integrity(db)
    ensures Shrinks(db, Release(db, id, device).0) && Integrity(Release(db, id, device).0)
    ensures Release(db, id, device).1.Unreferenced? ==> id in db.rows && id !in Release(db, id, device).0.rows
  {
    var (db', outcome) := Release(db, id, device);
    if outcome.Unreferenced? {
      assert (id, device) in db.claims;
      forall c | c in db'.claims ensures c.0 in db'.rows {
        assert c in db.claims;
      }
    }
  }

  lemma RecordClaims(db: Db, id: BlobId, row: Row, candidates: seq<DeviceId>, caps: Caps, b: BlobId)
    requires Integrity(db) && b != id
    ensures var db' := Record(db, id, row, candidates, caps).0;
            (Claimed(db', b) <==> Claimed(db, b)) && (b in db'.rows <==> b in db.rows)
              && (b in db.rows ==> db'.rows[b] == db.rows[b])
  {
    var db' := Record(db, id, row, candidates, caps).0;
    if Claimed(db', b) {
      var c :| c in db'.claims && c.0 == b;
      assert c in db.claims;
    }
    if Claimed(db, b) {
      var c :| c in db.claims && c.0 == b;
      assert c in db'.claims;
    }
  }

  lemma CommitKeeps(s: Server, caps: Caps, suspects: set<BlobId>, lost: set<BlobId>, id: BlobId, row: Row,
                    candidates: seq<DeviceId>)
    requires Inv(s, caps, suspects, lost) && InWindow(s, id)
    ensures Inv(Apply(s, caps, Commit(id, row, candidates)), caps, suspects, lost)
  {
    RecordKeepsCaps(s.db, id, row, candidates, caps);
    var s' := Apply(s, caps, Commit(id, row, candidates));
    forall b ensures BlobOk(s', suspects, lost, b) {
      assert BlobOk(s, suspects, lost, b);
      if b == id {
        CommitOwn(s, caps, suspects, lost, id, row, candidates);
      } else {
        RecordClaims(s.db, id, row, candidates, caps, b);
      }
    }
  }

  lemma CommitOwn(s: Server, caps: Caps, suspects: set<BlobId>, lost: set<BlobId>, id: BlobId, row: Row,
                  candidates: seq<DeviceId>)
    requires Integrity(s.db) && BlobOk(s, suspects, lost, id) && InWindow(s, id)
    ensures BlobOk(Apply(s, caps, Commit(id, row, candidates)), suspects, lost, id)
  {
  }

  lemma DeleteClaimKeeps(s: Server, caps: Caps, suspects: set<BlobId>, lost: set<BlobId>, id: BlobId, device: DeviceId)
    requires Inv(s, caps, suspects, lost)
    ensures Inv(Apply(s, caps, DeleteClaim(id, device)), caps, suspects, lost)
  {
    var (db, outcome) := Release(s.db, id, device);
    ReleaseShrinks(s.db, id, device);
    ShrinkKeeps(s, db, caps, suspects, lost);
    var s' := Apply(s, caps, DeleteClaim(id, device));
    forall b ensures BlobOk(s', suspects, lost, b) {
      assert BlobOk(s, suspects, lost, b) && BlobOk(s.(db := db), suspects, lost, b);
    }
  }

  lemma UploadStepOk(s: Server, caps: Caps, suspects: set<BlobId>, lost: set<BlobId>, step: Step, id: BlobId)
    requires Integrity(s.db) && BlobOk(s, suspects, lost, id)
    requires step.BeginUpload? || step.PutFails? || step.PutRenames? || step.RemoveFile?
    ensures BlobOk(Apply(s, caps, step), suspects, lost, id)
  {
  }

  lemma SweepStepOk(s: Server, caps: Caps, suspects: set<BlobId>, lost: set<BlobId>, step: Step, id: BlobId)
    requires Integrity(s.db) && BlobOk(s, suspects, lost, id)
    requires step.Tick? || step.ListExpired? || step.ListUnreferenced? || step.SweepFile?
    ensures BlobOk(Apply(s, caps, step), suspects, lost, id)
  {
  }

  lemma OrphanStepOk(s: Server, caps: Caps, suspects: set<BlobId>, lost: set<BlobId>, step: Step, id: BlobId)
    requires Integrity(s.db) && BlobOk(s, suspects, lost, id)
    requires step.OrphanCheck? || step.OrphanRemove? || step.Crash?
    ensures BlobOk(Apply(s, caps, step), SuspectsAfter(s, suspects, step), LostAfter(suspects, lost, step), id)
  {
  }

  /** Steps that leave the tables alone. */
  predicate FileStep(step: Step) {
    || step.BeginUpload? || step.PutFails? || step.PutRenames? || step.RemoveFile?
    || step.Tick? || step.ListExpired? || step.ListUnreferenced? || step.SweepFile?
    || step.OrphanCheck? || step.OrphanRemove? || step.Crash?
  }

  lemma FileStepKeeps(s: Server, caps: Caps, suspects: set<BlobId>, lost: set<BlobId>, step: Step)
    requires Inv(s, caps, suspects, lost) && FileStep(step)
    ensures Inv(Apply(s, caps, step), caps, SuspectsAfter(s, suspects, step), LostAfter(suspects, lost, step))
  {
    forall id
      ensures BlobOk(Apply(s, caps, step), SuspectsAfter(s, suspects, step), LostAfter(suspects, lost, step), id)
    {
      assert BlobOk(s, suspects, lost, id);
      if step.OrphanCheck? || step.OrphanRemove? || step.Crash? {
        OrphanStepOk(s, caps, suspects, lost, step, id);
      } else if step.Tick? || step.ListExpired? || step.ListUnreferenced? || step.SweepFile? {
        SweepStepOk(s, caps, suspects, lost, step, id);
      } else {
        UploadStepOk(s, caps, suspects, lost, step, id);
      }
    }
  }

  lemma SweepRowKeeps(s: Server, caps: Caps, suspects: set<BlobId>, lost: set<BlobId>, id: BlobId, ok: bool)
    requires Inv(s, caps, suspects, lost) && id in s.unlinked
    ensures Inv(Apply(s, caps, SweepRow(id, ok)), caps, suspects, lost)
  {
    ShrinkKeeps(s, DropBlob(s.db, id), caps, suspects, lost);
    var db := if ok then DropBlob(s.db, id) else s.db;
    forall b ensures BlobOk(Apply(s, caps, SweepRow(id, ok)), suspects, lost, b) {
      assert BlobOk(s, suspects, lost, b) && BlobOk(s.(db := db), suspects, lost, b);
    }
  }

  lemma StepKeeps(s: Server, caps: Caps, suspects: set<BlobId>, lost: set<BlobId>, step: Step)
    requires Inv(s, caps, suspects, lost)
    ensures Inv(Apply(s, caps, step), caps, SuspectsAfter(s, suspects, step), LostAfter(suspects, lost, step))
  {
    match step
    case Commit(id, row, candidates) =>
      if InWindow(s, id) {
        CommitKeeps(s, caps, suspects, lost, id, row, candidates);
      }
    case DeleteClaim(id, device) => DeleteClaimKeeps(s, caps, suspects, lost, id, device);
    case AddDevice(device) => ShrinkKeeps(s, s.db.(devices := s.db.devices + {device}), caps, suspects, lost);
    case RemoveDevice(device) => ShrinkKeeps(s, DropDevice(s.db, device), caps, suspects, lost);
    case SweepRow(id, ok) =>
      if id in s.unlinked {
        SweepRowKeeps(s, caps, suspects, lost, id, ok);
      }
    case _ => FileStepKeeps(s, caps, suspects, lost, step);
  }

  // ---------------------------------------------------------------------
  // Whole runs
  // ---------------------------------------------------------------------

  /** The caps need no condition on the sweep. */
  lemma StepKeepsCaps(s: Server, caps: Caps, step: Step)
    requires CapsHold(s.db, caps)
    ensures CapsHold(Apply(s, caps, step).db, caps)
  {
    match step
    case Commit(id, row, candidates) => RecordKeepsCaps(s.db, id, row, candidates, caps);
    case DeleteClaim(id, device) =>
      ReleaseShrinks(s.db, id, device);
      ShrinkKeepsCaps(s.db, Release(s.db, id, device).0, caps);
    case AddDevice(device) => ShrinkKeepsCaps(s.db, s.db.(devices := s.db.devices + {device}), caps);
    case RemoveDevice(device) => ShrinkKeepsCaps(s.db, DropDevice(s.db, device), caps);
    case SweepRow(id, ok) => ShrinkKeepsCaps(s.db, DropBlob(s.db, id), caps);
    case _ =>
  }

  lemma StartKeeps(now: int, caps: Caps)
    ensures Inv(Start(now), caps, {}, {})
  {
    forall d ensures Held(Start(now).db, d) == {} {
    }
  }

  /** Every run of any steps: per-device counts and bytes and the server-wide bytes stay within their caps. */
  ghost function Run(now: int, caps: Caps, steps: seq<Step>): (s: Server)
    ensures CapsHold(s.db, caps)
  {
    StartKeeps(now, caps);
    if steps == [] then Start(now)
    else
      var before := Run(now, caps, steps[..|steps| - 1]);
      StepKeepsCaps(before, caps, steps[|steps| - 1]);
      Apply(before, caps, steps[|steps| - 1])
  }

  ghost function Suspects(now: int, caps: Caps, steps: seq<Step>): set<BlobId> {
    if steps == [] then {}
    else
      var n := |steps| - 1;
      SuspectsAfter(Run(now, caps, steps[..n]), Suspects(now, caps, steps[..n]), steps[n])
  }

  /** Blobs whose file a sweep found inside their upload's window and then unlinked, with no crash between. */
  ghost function Lost(now: int, caps: Caps, steps: seq<Step>): set<BlobId> {
    if steps == [] then {}
    else
      var n := |steps| - 1;
      LostAfter(Suspects(now, caps, steps[..n]), Lost(now, caps, steps[..n]), steps[n])
  }

  lemma {:induction false} RunKeeps(now: int, caps: Caps, steps: seq<Step>)
    ensures Inv(Run(now, caps, steps), caps, Suspects(now, caps, steps), Lost(now, caps, steps))
  {
    if steps == [] {
      StartKeeps(now, caps);
    } else {
      var n := |steps| - 1;
      RunKeeps(now, caps, steps[..n]);
      StepKeeps(Run(now, caps, steps[..n]), caps, Suspects(now, caps, steps[..n]), Lost(now, caps, steps[..n]),
        steps[n]);
    }
  }

  /** In every run at all, an unexpired row with a recipient lacks its file exactly if the orphan sweep took it that
      way. */
  lemma BytesMissingExactly(now: int, caps: Caps, steps: seq<Step>, id: BlobId)
    requires Wanted(Run(now, caps, steps), id)
    ensures id !in Run(now, caps, steps).files <==> id in Lost(now, caps, steps)
  {
    RunKeeps(now, caps, steps);
    assert BlobOk(Run(now, caps, steps), Suspects(now, caps, steps), Lost(now, caps, steps), id);
  }

  /** No orphan check of the run falls into an upload's window between rename and commit. */
  ghost predicate SweepsAllowed(now: int, caps: Caps, steps: seq<Step>) {
    steps == [] ||
    var n := |steps| - 1;
    SweepsAllowed(now, caps, steps[..n])
      && !(steps[n].OrphanCheck? && InWindow(Run(now, caps, steps[..n]), steps[n].id))
  }

  lemma {:induction false} NothingLost(now: int, caps: Caps, steps: seq<Step>)
    requires SweepsAllowed(now, caps, steps)
    ensures Suspects(now, caps, steps) == {} && Lost(now, caps, steps) == {}
  {
    if steps != [] {
      NothingLost(now, caps, steps[..|steps| - 1]);
    }
  }

  /** In every such run, every unexpired row with a recipient has its file. */
  lemma BytesStayBehindRows(now: int, caps: Caps, steps: seq<Step>)
    requires SweepsAllowed(now, caps, steps)
    ensures BytesBehindRows(Run(now, caps, steps))
  {
    NothingLost(now, caps, steps);
    forall id | Wanted(Run(now, caps, steps), id) ensures id in Run(now, caps, steps).files {
      BytesMissingExactly(now, caps, steps, id);
    }
  }

  // ---------------------------------------------------------------------
  // How claims and rows come and go
  // ---------------------------------------------------------------------

  /** The recipient deletes its claim, its device is removed, or a sweep that has unlinked the file drops the row. */
  predicate TakesClaim(s: Server, step: Step, id: BlobId, device: DeviceId) {
    || step == DeleteClaim(id, device) || step == RemoveDevice(device)
    || (step == SweepRow(id, true) && id in s.unlinked)
  }

  /** A claim leaves in a step exactly so: what one recipient does never touches another's. */
  lemma ClaimLeavesExactly(s: Server, caps: Caps, step: Step, id: BlobId, device: DeviceId)
    requires Integrity(s.db) && (id, device) in s.db.claims
    ensures (id, device) !in Apply(s, caps, step).db.claims <==> TakesClaim(s, step, id, device)
  {
  }

  /** A claim comes in a step exactly if an upload in its window commits and the device is among those stored. */
  lemma ClaimComesExactly(s: Server, caps: Caps, step: Step, id: BlobId, device: DeviceId)
    requires Integrity(s.db) && (id, device) !in s.db.claims
    ensures (id, device) in Apply(s, caps, step).db.claims <==>
              && step.Commit? && step.id == id && InWindow(s, id)
              && var outcome := Record(s.db, id, step.row, step.candidates, caps).1;
                 outcome.Recorded? && device in outcome.stored
  {
  }

  /** The step deletes the only claim left on the blob. */
  predicate TakesLastClaim(s: Server, step: Step, id: BlobId) {
    && step.DeleteClaim? && step.id == id && (id, step.device) in s.db.claims
    && (forall c :: c in s.db.claims && c.0 == id ==> c == (id, step.device))
  }

  /** A row leaves exactly with its last deleted claim or with a sweep that has unlinked its file, and is never altered;
      with the last claim its file is handed to the request to unlink. */
  lemma RowLeavesExactly(s: Server, caps: Caps, step: Step, id: BlobId)
    requires Integrity(s.db) && id in s.db.rows
    ensures var s' := Apply(s, caps, step);
            && (id !in s'.db.rows <==>
                  TakesLastClaim(s, step, id) || (step == SweepRow(id, true) && id in s.unlinked))
            && (id in s'.db.rows ==> s'.db.rows[id] == s.db.rows[id])
            && (TakesLastClaim(s, step, id) ==> id in s'.removals)
  {
  }

  lemma DevicesExactly(s: Server, caps: Caps, step: Step, device: DeviceId)
    requires Integrity(s.db)
    ensures device in Apply(s, caps, step).db.devices <==>
              step == AddDevice(device) || (device in s.db.devices && step != RemoveDevice(device))
  {
  }

  /** The id is spent and nothing of it is left. */
  predicate Vanished(s: Server, id: BlobId) {
    id in s.used && id !in s.uploads && id !in s.files && id !in s.db.rows
  }

  /** An upload whose body could not be written, or whose process ended first, leaves no row and no file, ever: over any
      continuation its id stays unknown. */
  lemma {:induction false} FailedUploadLeavesNothing(now: int, caps: Caps, steps: seq<Step>, id: BlobId, crash: bool,
                                                     more: seq<Step>)
    requires var s := Run(now, caps, steps); id in s.uploads && s.uploads[id] == Writing
    ensures Vanished(Run(now, caps, steps + [if crash then Crash else PutFails(id)] + more), id)
  {
    var failed := steps + [if crash then Crash else PutFails(id)];
    if more == [] {
      assert failed + more == failed && failed[..|steps|] == steps;
      RunKeeps(now, caps, steps);
      assert BlobOk(Run(now, caps, steps), Suspects(now, caps, steps), Lost(now, caps, steps), id);
    } else {
      FailedUploadLeavesNothing(now, caps, steps, id, crash, more[..|more| - 1]);
      RunLast(now, caps, failed, more);
      VanishedStays(Run(now, caps, failed + more[..|more| - 1]), caps, more[|more| - 1], id);
    }
  }

  lemma VanishedStays(s: Server, caps: Caps, step: Step, id: BlobId)
    requires Integrity(s.db) && Vanished(s, id)
    ensures Vanished(Apply(s, caps, step), id)
  {
    if step.DeleteClaim? {
      ReleaseShrinks(s.db, step.id, step.device);
    }
  }

  /** Every claim is some existing device's on some existing blob. */
  ghost predicate NoneDangling(db: Db) {
    forall c :: c in db.claims ==> c.0 in db.rows && c.1 in db.devices
  }

  lemma NoneDanglingStep(s: Server, caps: Caps, step: Step)
    requires CapsHold(s.db, caps) && NoneDangling(s.db)
    ensures NoneDangling(Apply(s, caps, step).db)
  {
    StepKeepsCaps(s, caps, step);
    forall c | c in Apply(s, caps, step).db.claims ensures c.1 in Apply(s, caps, step).db.devices {
      if c !in s.db.claims {
        ClaimComesExactly(s, caps, step, c.0, c.1);
      }
    }
  }

  /** In every run the foreign keys hold. */
  lemma {:induction false} ClaimsNeverDangle(now: int, caps: Caps, steps: seq<Step>)
    ensures NoneDangling(Run(now, caps, steps).db)
  {
    if steps != [] {
      var n := |steps| - 1;
      ClaimsNeverDangle(now, caps, steps[..n]);
      NoneDanglingStep(Run(now, caps, steps[..n]), caps, steps[n]);
    }
  }

  /** The recipient's own doing. */
  predicate GivesUp(step: Step, id: BlobId, device: DeviceId) {
    step == DeleteClaim(id, device) || step == RemoveDevice(device)
  }

  predicate Holds(s: Server, id: BlobId, device: DeviceId, row: Row) {
    (id, device) in s.db.claims && id in s.db.rows && s.db.rows[id] == row
  }

  /** Over any continuation a claim stays, with its row as it was, until its recipient gives it up or it expires: no
      other recipient, upload, sweep or crash takes it away. */
  lemma {:induction false} ClaimStays(now: int, caps: Caps, steps: seq<Step>, more: seq<Step>, id: BlobId,
                                      device: DeviceId, row: Row)
    requires Holds(Run(now, caps, steps), id, device, row)
    requires forall step :: step in more ==> !GivesUp(step, id, device)
    requires Run(now, caps, steps + more).now <= row.expires
    ensures Holds(Run(now, caps, steps + more), id, device, row)
  {
    if more == [] {
      assert steps + more == steps;
    } else {
      var n := |more| - 1;
      RunLast(now, caps, steps, more);
      assert more[n] in more && forall step :: step in more[..n] ==> step in more;
      ClaimStays(now, caps, steps, more[..n], id, device, row);
      ClaimStaysStep(now, caps, steps + more[..n], more[n], id, device, row);
    }
  }

  lemma {:induction false} RunLast(now: int, caps: Caps, steps: seq<Step>, more: seq<Step>)
    requires more != []
    ensures var s := Run(now, caps, steps + more[..|more| - 1]);
            && Run(now, caps, steps + more) == Apply(s, caps, more[|more| - 1])
            && s.now <= Run(now, caps, steps + more).now
  {
    assert (steps + more)[..|steps| + |more| - 1] == steps + more[..|more| - 1];
  }

  lemma ClaimStaysStep(now: int, caps: Caps, steps: seq<Step>, step: Step, id: BlobId, device: DeviceId, row: Row)
    requires Holds(Run(now, caps, steps), id, device, row) && !GivesUp(step, id, device)
    requires Run(now, caps, steps).now <= row.expires
    ensures Holds(Apply(Run(now, caps, steps), caps, step), id, device, row)
  {
    var s := Run(now, caps, steps);
    RunKeeps(now, caps, steps);
    assert BlobOk(s, Suspects(now, caps, steps), Lost(now, caps, steps), id);
    assert (id, device) in s.db.claims && Wanted(s, id);
    ClaimLeavesExactly(s, caps, step, id, device);
    RowLeavesExactly(s, caps, step, id);
  }

  /** A pass over one blob takes its row, claims and file exactly if the row is past its retention, or claimed by
      nobody, as the pass asks; and nothing else. */
  lemma PassCollectsExactly(s: Server, caps: Caps, id: BlobId, expired: bool)
    requires CapsHold(s.db, caps) && id !in s.listed && id !in s.unlinked
    ensures var listed := Apply(s, caps, if expired then ListExpired({id}) else ListUnreferenced({id}));
            var due := if expired then Expired(s, id) else id in s.db.rows && !Claimed(s.db, id);
            && Integrity(listed.db) && Integrity(Apply(listed, caps, SweepFile(id, true)).db)
            && var swept := Apply(Apply(listed, caps, SweepFile(id, true)), caps, SweepRow(id, true));
               if due then
                 && swept.db == DropBlob(s.db, id) && swept.files == s.files - {id}
                 && id !in swept.listed && id !in swept.unlinked
               else swept == s
  {
    var listed := Apply(s, caps, if expired then ListExpired({id}) else ListUnreferenced({id}));
    var due := if expired then Expired(s, id) else id in s.db.rows && !Claimed(s.db, id);
    assert listed.listed == if due then s.listed + {id} else s.listed;
    StepKeepsCaps(s, caps, if expired then ListExpired({id}) else ListUnreferenced({id}));
    StepKeepsCaps(listed, caps, SweepFile(id, true));
  }

  /** The file goes before the row: where the unlink fails the row stays for the next pass, and a pass cut short by the
      end of the process has to list the row again. */
  lemma RowOutlivesItsFile(s: Server, caps: Caps, id: BlobId)
    requires CapsHold(s.db, caps)
    ensures id !in s.unlinked ==>
              && Apply(s, caps, SweepRow(id, true)) == s
              && Integrity(Apply(s, caps, SweepFile(id, false)).db)
              && var failed := Apply(s, caps, SweepFile(id, false));
                 failed.files == s.files && Apply(failed, caps, SweepRow(id, true)) == failed
                 && id !in failed.listed
    ensures Integrity(Apply(s, caps, Crash).db)
    ensures var crashed := Apply(s, caps, Crash);
            && crashed.db == s.db && crashed.files == s.files
            && Apply(crashed, caps, SweepFile(id, true)) == Apply(crashed, caps, SweepRow(id, true)) == crashed
            && Apply(crashed, caps, RemoveFile(id, true)) == Apply(crashed, caps, OrphanRemove(id)) == crashed
  {
    StepKeepsCaps(s, caps, SweepFile(id, false));
    StepKeepsCaps(s, caps, Crash);
  }

  /** A file that nothing keeps and nobody is about to unlink. */
  predicate Stranded(s: Server, id: BlobId) {
    id in s.files && id !in s.db.rows && id !in s.uploads && id !in s.removals
  }

  /** In every run a file is stranded exactly by a crash before its row came or its unlink was done, or by an unlink
      that failed, and stays so exactly until a sweep that has found it unlinks it. */
  lemma StrandedExactly(now: int, caps: Caps, steps: seq<Step>, step: Step, id: BlobId)
    ensures var s := Run(now, caps, steps);
            Stranded(Apply(s, caps, step), id) <==>
              if Stranded(s, id) then
                !((step == OrphanRemove(id) && id in s.orphans) || (step == SweepFile(id, true) && id in s.listed))
              else
                && id in s.files && id !in s.db.rows
                && (step == Crash || (step == RemoveFile(id, false) && id in s.removals))
  {
    RunKeeps(now, caps, steps);
    assert BlobOk(Run(now, caps, steps), Suspects(now, caps, steps), Lost(now, caps, steps), id);
  }

  // ---------------------------------------------------------------------
  // A run that loses bytes
  // ---------------------------------------------------------------------

  lemma RunNext(now: int, caps: Caps, steps: seq<Step>, k: nat)
    requires k < |steps|
    ensures Run(now, caps, steps[..k + 1]) == Apply(Run(now, caps, steps[..k]), caps, steps[k])
  {
    assert steps[..k + 1][..k] == steps[..k];
  }

  /** The caps admit one blob of this size for one device. */
  predicate RoomForOne(caps: Caps, size: nat) {
    caps.maxBlobs >= 1 && size <= caps.maxBytes && (caps.total == 0 || size <= caps.total)
  }

  lemma FirstFits(row: Row, device: DeviceId, caps: Caps)
    requires RoomForOne(caps, row.size)
    ensures var db := Db(map[], {}, {device});
            Integrity(db) && FitsQuota(db, device, row.size, caps) && Sum(db.rows, db.rows.Keys) == 0
  {
    var db := Db(map[], {}, {device});
    assert Held(db, device) == {};
  }

  lemma SelectOne(db: Db, device: DeviceId, size: nat, caps: Caps)
    requires Integrity(db) && FitsQuota(db, device, size, caps)
    ensures Select(db, [device], size, caps, true) == [device] && Select(db, [device], size, caps, false) == []
  {
    assert [device][..0] == [];
  }

  lemma FirstRecord(id: BlobId, row: Row, device: DeviceId, caps: Caps)
    requires RoomForOne(caps, row.size)
    ensures var db := Db(map[], {}, {device});
            && Integrity(db)
            && Record(db, id, row, [device], caps) ==
               (Db(map[id := row], {(id, device)}, {device}), Recorded([device], []))
  {
    var db := Db(map[], {}, {device});
    FirstFits(row, device, caps);
    SelectOne(db, device, row.size, caps);
    OneClaim(id, device);
    assert db.claims + {(id, device)} == {(id, device)};
  }

  lemma OneClaim(id: BlobId, device: DeviceId)
    ensures ClaimsOf(id, [device]) == {(id, device)} && Insertable(Db(map[], {}, {device}), id, [device])
  {
  }

  /** The state a sweep leaves that has just found the renamed file of an upload. */
  function Caught(now: int, id: BlobId, device: DeviceId): Server {
    Server(Db(map[], {}, {device}), {id}, now, map[id := Written], {}, {}, {}, {id}, {id})
  }

  lemma CaughtUpload(now: int, caps: Caps, id: BlobId, device: DeviceId)
    ensures var s := Server(Db(map[], {}, {device}), {}, now, map[], {}, {}, {}, {}, {});
            && Integrity(s.db) && Integrity(Apply(s, caps, BeginUpload(id)).db)
            && Integrity(Apply(Apply(s, caps, BeginUpload(id)), caps, PutRenames(id)).db)
            && Apply(Apply(Apply(s, caps, BeginUpload(id)), caps, PutRenames(id)), caps, OrphanCheck(id)) ==
               Caught(now, id, device)
  {
    var s := Server(Db(map[], {}, {device}), {}, now, map[], {}, {}, {}, {}, {});
    assert Apply(s, caps, BeginUpload(id)) == s.(uploads := map[id := Writing], used := {id});
    assert Apply(Apply(s, caps, BeginUpload(id)), caps, PutRenames(id)) ==
      s.(uploads := map[id := Written], files := {id}, used := {id});
  }

  function Committed(now: int, id: BlobId, row: Row, device: DeviceId): Server {
    Server(Db(map[id := row], {(id, device)}, {device}), {id}, now, map[], {}, {}, {}, {id}, {id})
  }

  lemma CaughtCommits(now: int, caps: Caps, id: BlobId, row: Row, device: DeviceId)
    requires RoomForOne(caps, row.size)
    ensures Integrity(Caught(now, id, device).db)
    ensures Apply(Caught(now, id, device), caps, Commit(id, row, [device])) == Committed(now, id, row, device)
  {
    FirstRecord(id, row, device, caps);
    var s := Caught(now, id, device);
    CommitsAs(s, caps, id, row, [device], Db(map[id := row], {(id, device)}, {device}), Recorded([device], []));
    assert s.uploads - {id} == map[];
  }

  lemma CommitsAs(s: Server, caps: Caps, id: BlobId, row: Row, candidates: seq<DeviceId>, db: Db,
                  outcome: RecordOutcome)
    requires Integrity(s.db) && InWindow(s, id) && Record(s.db, id, row, candidates, caps) == (db, outcome)
    requires outcome.Recorded? && outcome.stored != []
    ensures Apply(s, caps, Commit(id, row, candidates)) == s.(db := db, uploads := s.uploads - {id})
  {
  }

  lemma CommittedIsRemoved(now: int, caps: Caps, id: BlobId, row: Row, device: DeviceId)
    requires row.expires >= now
    ensures Integrity(Committed(now, id, row, device).db)
    ensures var s := Apply(Committed(now, id, row, device), caps, OrphanRemove(id)); Wanted(s, id) && id !in s.files
  {
    assert (id, device) in Committed(now, id, row, device).db.claims;
  }

  lemma DeviceAdded(now: int, caps: Caps, device: DeviceId, steps: seq<Step>)
    requires steps != [] && steps[0] == AddDevice(device)
    ensures Run(now, caps, steps[..1]) == Server(Db(map[], {}, {device}), {}, now, map[], {}, {}, {}, {}, {})
  {
    RunNext(now, caps, steps, 0);
    assert {} + {device} == {device};
  }

  lemma ThreeSteps(now: int, caps: Caps, steps: seq<Step>, k: nat, s: Server)
    requires k + 3 <= |steps| && Run(now, caps, steps[..k]) == s
    ensures var s1 := Apply(s, caps, steps[k]);
            && Integrity(s1.db) && Integrity(Apply(s1, caps, steps[k + 1]).db)
            && Run(now, caps, steps[..k + 3]) == Apply(Apply(s1, caps, steps[k + 1]), caps, steps[k + 2])
  {
    RunNext(now, caps, steps, k);
    RunNext(now, caps, steps, k + 1);
    RunNext(now, caps, steps, k + 2);
  }

  lemma RunCaught(now: int, caps: Caps, id: BlobId, device: DeviceId, steps: seq<Step>)
    requires |steps| >= 4 && steps[0] == AddDevice(device) && steps[1] == BeginUpload(id) && steps[2] == PutRenames(id)
             && steps[3] == OrphanCheck(id)
    ensures Run(now, caps, steps[..4]) == Caught(now, id, device)
  {
    DeviceAdded(now, caps, device, steps);
    CaughtUpload(now, caps, id, device);
    ThreeSteps(now, caps, steps, 1, Server(Db(map[], {}, {device}), {}, now, map[], {}, {}, {}, {}, {}));
  }

  /** The condition is needed: the sweep looks at the file after its rename, the upload commits, the sweep unlinks. */
  lemma SweepInsideWindowLosesBytes(now: int, caps: Caps, id: BlobId, row: Row, device: DeviceId)
    requires RoomForOne(caps, row.size) && row.expires >= now
    ensures var steps := [AddDevice(device), BeginUpload(id), PutRenames(id), OrphanCheck(id),
                          Commit(id, row, [device]), OrphanRemove(id)];
            var s := Run(now, caps, steps);
            Wanted(s, id) && id !in s.files && !BytesBehindRows(s)
  {
    var steps := [AddDevice(device), BeginUpload(id), PutRenames(id), OrphanCheck(id),
                  Commit(id, row, [device]), OrphanRemove(id)];
    RunCaught(now, caps, id, device, steps);
    CaughtCommits(now, caps, id, row, device);
    CommittedIsRemoved(now, caps, id, row, device);
    RunNext(now, caps, steps, 4);
    assert Run(now, caps, steps[..5]) == Committed(now, id, row, device);
    RunNext(now, caps, steps, 5);
    assert steps[..6] == steps;
  }
}

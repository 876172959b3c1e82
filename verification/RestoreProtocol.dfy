/** Every durable write of `restore prepare`, `commit` and `abort` and of a writing
    server, as a transition of `Disk`, and what every run keeps. A process may be
    killed between any two writes and the next command starts from the files alone,
    so a run with kills and restarts is just a sequence of allowed writes.
    Source: server/src/restore.rs. */
module RestoreProtocol {
  import opened Wrappers
  import opened RestoreTypes
  import opened RestoreState
  import DataPlane

  datatype CommitWrite =
    | Quiesce
    | DropShm
    | CommitTmp(tmp: Tmp)
    | RecordNext(at: nat)
    | Checkpoint
    | ArchiveSidecar(sidecar: Sidecar)
    | ArchiveDb
    | InstallCandidate
    | TxBegin
    | TxRollBack
    | TxCommit
    | ManifestTerminal
    | RetireAudit
    | RetireArtifact(artifact: Artifact)
    | RetireManifest
    | RetireDir(txn: Id)

  datatype AbortWrite =
    | AbortAudit(txn: Id)
    | AbortCandidate(txn: Id)
    | AbortCandidateTmp(txn: Id)
    | AbortArtifact(txn: Id, artifact: Artifact)
    | AbortDir(txn: Id)
    | AbortTmp(tmp: Tmp)
    | AbortManifest

  datatype PrepareWrite =
    | PrepareAudit(txn: Id)
    | PrepareQuiesce
    | PrepareDropShm
    | CandidateTmp(txn: Id)
    | DropCandidateTmp(txn: Id)
    | CandidateReady(txn: Id, candidate: Db)
    | MakeDir(txn: Id)
    | ArtifactTmp(txn: Id)
    | ArtifactReady(txn: Id, artifact: Artifact)
    | PrepareTmp
    | ManifestReady(manifest: Manifest)

  /** `restore abort --orphans`, with or without `--delete-archives`. */
  datatype OrphanWrite =
    | OrphanCandidate(txn: Id)
    | OrphanCandidateTmp(txn: Id)
    | OrphanDir(txn: Id)
    | OrphanTmp(tmp: Tmp)
    | DeleteArchive(slot: (Id, Slot))

  /** `Server` is any write of a server that opened the database for writing. */
  datatype Write =
    | Commit(commit: CommitWrite)
    | Abort(abort: AbortWrite)
    | Prepare(prepare: PrepareWrite)
    | Orphans(orphan: OrphanWrite)
    | Server(db: Db)

  // -------------------------------------------------- what commit computes ----

  function NextRecord(p: Manifest, at: nat): Record {
    Record(p.instance, p.newEpoch, p.txn, p.candidateDb, p.transitionSet, at)
  }

  /** The index file the manifest names by hash, if the artifact directory holds it
      and every name in the directory is its content's hash. */
  function IndexOf(d: Disk, p: Manifest): Option<Index> {
    if p.txn in d.dirs && !d.dirs[p.txn].stray && p.transitionSet.OfIndex?
       && IndexFile(p.transitionSet.index) in d.dirs[p.txn].files
    then
      var i := p.transitionSet.index;
      if i.instance == p.instance && i.previousEpoch == p.previousEpoch && i.newEpoch == p.newEpoch && i.txn == p.txn
      then Some(i) else None
    else None
  }

  predicate Verifies(d: Disk, p: Manifest, db: Db) {
    var i := IndexOf(d, p);
    i.Some? && DataPlane.Installed(db.plane, p.instance, p.previousEpoch, i.value.entries, d.dirs[p.txn].files)
  }

  /** The one step-5 transaction. */
  function Reconciled(db: Db, p: Manifest, i: Index, sha: Sha): Db {
    var rows := DataPlane.RowsAt(db.plane, p.instance, p.previousEpoch);
    Db(Some(Mirror(p.instance, p.newEpoch, sha)),
       db.log + [ServerRow(RestoreCommit, p.txn)],
       db.events + (set t | t in i.entries && t in rows :: TenantRow(t, rows[t].replay, p.txn)),
       db.plane.(scratch := {}))
  }

  /** `wal_checkpoint(TRUNCATE)`. */
  function Checkpointed(sidecars: map<Sidecar, Content>): map<Sidecar, Content> {
    if Wal in sidecars then sidecars[Wal := Empty] else sidecars
  }

  predicate Empties(sidecars: map<Sidecar, Content>) {
    Wal in sidecars ==> sidecars[Wal] == Empty
  }

  /** The live database is exactly the one the index was made from. */
  predicate LiveUnchanged(d: Disk, i: Index) {
    d.db.Some? && d.db.value.Whole? && OfDb(d.db.value.db) == i.liveDb && Empties(d.sidecars)
  }

  function AddRow(file: Option<DbFile>, row: AuditRow): Option<DbFile> {
    if file.Some? && file.value.Whole? then Some(Whole(file.value.db.(log := file.value.db.log + [row]))) else file
  }

  // ------------------------------------------------------------ the writes ----

  /** The effect of a write on the files. */
  function Apply(w: Write, d: Disk): Disk {
    match w
    case Commit(w) => ApplyCommit(w, d)
    case Abort(w) => ApplyAbort(w, d)
    case Prepare(w) => ApplyPrepare(w, d)
    case Orphans(w) => ApplyOrphan(w, d)
    case Server(db) => d.(db := Some(Whole(db)))
  }

  function ApplyCommit(w: CommitWrite, d: Disk): Disk {
    match w
    case Quiesce => d.(sidecars := Checkpointed(d.sidecars))
    case DropShm => d.(sidecars := d.sidecars - {Shm})
    case CommitTmp(tmp) => d.(tmps := d.tmps + {tmp})
    case RecordNext(at) =>
      if d.prep.Parsed? then d.(record := Some(NextRecord(d.prep.manifest, at)), tmps := d.tmps - {RecordTmp}) else d
    case Checkpoint => d.(sidecars := Checkpointed(d.sidecars))
    case ArchiveSidecar(s) =>
      if d.prep.Parsed? && s in d.sidecars then
        d.(sidecars := d.sidecars - {s}, archives := d.archives[(d.prep.manifest.txn, Side(s)) := d.sidecars[s]])
      else d
    case ArchiveDb =>
      if d.prep.Parsed? && d.db.Some? && d.db.value.Whole? then
        d.(db := None, archives := d.archives[(d.prep.manifest.txn, Main) := DbContent(d.db.value.db)])
      else d
    case InstallCandidate =>
      if d.prep.Parsed? && d.prep.manifest.txn in d.candidates then
        d.(db := Some(Whole(d.candidates[d.prep.manifest.txn])), candidates := d.candidates - {d.prep.manifest.txn})
      else d
    case TxBegin =>
      if d.db.Some? && d.db.value.Whole? then d.(db := Some(Torn(d.db.value.db))) else d
    case TxRollBack =>
      if d.db.Some? && d.db.value.Torn? then d.(db := Some(Whole(d.db.value.before))) else d
    case TxCommit =>
      if d.prep.Parsed? && d.db.Some? && d.record.Some? && IndexOf(d, d.prep.manifest).Some? then
        var before := if d.db.value.Whole? then d.db.value.db else d.db.value.before;
        d.(db := Some(Whole(Reconciled(before, d.prep.manifest, IndexOf(d, d.prep.manifest).value, OfRecord(d.record.value)))))
      else d
    case ManifestTerminal =>
      if d.prep.Parsed? then d.(prep := Parsed(d.prep.manifest.(state := Terminal)), tmps := d.tmps - {ManifestTmp}) else d
    case RetireAudit => if d.record.Some? then d.(db := AddRow(d.db, ServerRow(RestoreRetire, d.record.value.txn))) else d
    case RetireArtifact(a) =>
      if d.record.Some? && d.record.value.txn in d.dirs then DropArtifact(d, d.record.value.txn, a) else d
    case RetireManifest => d.(prep := NoManifest)
    case RetireDir(txn) => d.(dirs := d.dirs - {txn})
  }

  function ApplyAbort(w: AbortWrite, d: Disk): Disk {
    match w
    case AbortAudit(txn) => d.(db := AddRow(d.db, ServerRow(RestoreAbort, txn)))
    case AbortCandidate(txn) => d.(candidates := d.candidates - {txn})
    case AbortCandidateTmp(txn) => d.(candidateTmps := d.candidateTmps - {txn})
    case AbortArtifact(txn, a) => if txn in d.dirs then DropArtifact(d, txn, a) else d
    case AbortDir(txn) => d.(dirs := d.dirs - {txn})
    case AbortTmp(tmp) => d.(tmps := d.tmps - {tmp})
    case AbortManifest => d.(prep := NoManifest)
  }

  function ApplyPrepare(w: PrepareWrite, d: Disk): Disk {
    match w
    case PrepareAudit(txn) => d.(db := AddRow(d.db, ServerRow(RestorePrepare, txn)))
    case PrepareQuiesce => d.(sidecars := Checkpointed(d.sidecars))
    case PrepareDropShm => d.(sidecars := d.sidecars - {Shm})
    case CandidateTmp(txn) => d.(candidateTmps := d.candidateTmps + {txn})
    case DropCandidateTmp(txn) => d.(candidateTmps := d.candidateTmps - {txn})
    case CandidateReady(txn, candidate) =>
      d.(candidateTmps := d.candidateTmps - {txn}, candidates := d.candidates[txn := candidate])
    case MakeDir(txn) => d.(dirs := d.dirs[txn := Dir({}, false)])
    case ArtifactTmp(txn) => if txn in d.dirs then d.(dirs := d.dirs[txn := d.dirs[txn].(stray := true)]) else d
    case ArtifactReady(txn, a) =>
      if txn in d.dirs then d.(dirs := d.dirs[txn := Dir(d.dirs[txn].files + {a}, false)]) else d
    case PrepareTmp => d.(tmps := d.tmps + {ManifestTmp})
    case ManifestReady(manifest) => d.(prep := Parsed(manifest), tmps := d.tmps - {ManifestTmp})
  }

  function ApplyOrphan(w: OrphanWrite, d: Disk): Disk {
    match w
    case OrphanCandidate(txn) => d.(candidates := d.candidates - {txn})
    case OrphanCandidateTmp(txn) => d.(candidateTmps := d.candidateTmps - {txn})
    case OrphanDir(txn) => d.(dirs := d.dirs - {txn})
    case OrphanTmp(tmp) => d.(tmps := d.tmps - {tmp})
    case DeleteArchive(slot) => d.(archives := d.archives - {slot})
  }

  function DropArtifact(d: Disk, txn: Id, a: Artifact): Disk
    requires txn in d.dirs
  {
    d.(dirs := d.dirs[txn := d.dirs[txn].(files := d.dirs[txn].files - {a})])
  }

  /** When a command makes a write: the class it started from, still read from the same
      files, and the checks the code makes before the write. */
  predicate Allowed(w: Write, d: Disk) {
    match w
    case Commit(w) => CommitAllowed(w, d)
    case Abort(w) => AbortAllowed(w, d)
    case Prepare(w) => PrepareAllowed(w, d)
    case Orphans(_) => ClassOf(d) == K3
    case Server(_) => !ClassOf(d).ReadOnly()
  }

  predicate CommitAllowed(w: CommitWrite, d: Disk) {
    var k := ClassOf(d);
    match w
    case Quiesce => k == K7 && d.db.Some? && d.db.value.Whole?
    case DropShm => k == K7 && Empties(d.sidecars) && Shm in d.sidecars
    case CommitTmp(tmp) => k in {K7, K10} && (tmp == RecordTmp <==> k == K7)
    case RecordNext(at) =>
      && k == K7
      && d.prep.manifest.txn in d.candidates && OfDb(d.candidates[d.prep.manifest.txn]) == d.prep.manifest.candidateDb
      && IndexOf(d, d.prep.manifest).Some?
      && LiveUnchanged(d, IndexOf(d, d.prep.manifest).value) && Shm !in d.sidecars
    case Checkpoint => k == K8 && d.db.Some?
    case ArchiveSidecar(s) => k == K8 && s in d.sidecars && SlotFree(d, (d.prep.manifest.txn, Side(s)), d.sidecars[s])
    case ArchiveDb =>
      && k == K8 && d.sidecars == map[] && d.db.Some? && d.db.value.Whole?
      && SlotFree(d, (d.prep.manifest.txn, Main), DbContent(d.db.value.db))
    case InstallCandidate => k == K8 && d.db.None? && d.sidecars == map[]
    case TxBegin => k == K9 && Step5(d)
    case TxRollBack => k == K9 && d.db.Some? && d.db.value.Torn?
    case TxCommit => k == K9 && Step5(d)
    case ManifestTerminal =>
      && k == K10 && d.db.value.Whole? && Verifies(d, d.prep.manifest, d.db.value.db)
    case RetireAudit => k == K5b
    case RetireArtifact(_) => k in {K5b, K11}
    case RetireManifest => k in {K5b, K11} && (d.record.value.txn in d.dirs ==> d.dirs[d.record.value.txn].files == {})
    case RetireDir(txn) => k == K3 && d.record.value.txn == txn && txn in d.dirs && d.dirs[txn].files == {}
  }

  predicate AbortAllowed(w: AbortWrite, d: Disk) {
    ClassOf(d) in {K5a, K7} && (w.AbortAudit? || AbortAudited(d))
  }

  predicate PrepareAllowed(w: PrepareWrite, d: Disk) {
    && ClassOf(d) == K3
    && (w.MakeDir? ==> w.txn !in d.dirs)
    && (w.ManifestReady? ==>
          && w.manifest.state == Prepared && w.manifest.instance == d.record.value.instance
          && w.manifest.previousEpoch == d.record.value.epoch && w.manifest.newEpoch == w.manifest.previousEpoch + 1
          && w.manifest.previousRecord == OfRecord(d.record.value))
  }

  /** The abort row is the last thing written to the live database. */
  predicate AbortAudited(d: Disk) {
    && d.db.Some? && d.db.value.Whole?
    && var log := d.db.value.db.log;
    |log| > 0 && log[|log| - 1].ServerRow? && log[|log| - 1].action == RestoreAbort
  }

  /** What `rolled_back_candidate` and `reconcile` require before the transaction commits. */
  predicate Step5(d: Disk) {
    && d.prep.Parsed? && d.db.Some? && d.record.Some?
    && var db := if d.db.value.Whole? then d.db.value.db else d.db.value.before;
    && OfDb(db) == d.prep.manifest.candidateDb
    && Verifies(d, d.prep.manifest, db)
    && db.mirror.Some? && db.mirror.value.instance == d.prep.manifest.instance
  }

  // ------------------------------------------------------------------ runs ----

  predicate Run(d: Disk, ws: seq<Write>)
    decreases |ws|
  {
    ws == [] || (Allowed(ws[0], d) && Run(Apply(ws[0], d), ws[1..]))
  }

  function After(d: Disk, ws: seq<Write>): Disk
    decreases |ws|
  {
    if ws == [] then d else After(Apply(ws[0], d), ws[1..])
  }

  // ------------------------------------------- the phases of one restore ----

  /** The fixed objects of one prepared restore: record E, the manifest, the live and
      the candidate database, the index. */
  datatype Ctx = Ctx(e: Record, p: Manifest, live: Db, candidate: Db, index: Index)

  /** What a successful `prepare` has established about them. */
  ghost predicate Sound(c: Ctx) {
    && c.p.state == Prepared && c.p.instance == c.e.instance
    && c.p.previousEpoch == c.e.epoch && c.p.newEpoch == c.e.epoch + 1
    && c.p.previousRecord == OfRecord(c.e)
    && c.p.candidateDb == OfDb(c.candidate) && c.p.transitionSet == OfIndex(c.index)
    && c.index.liveDb == OfDb(c.live)
    && c.live.mirror == c.candidate.mirror == Some(Mirror(c.e.instance, c.e.epoch, OfRecord(c.e)))
    && |c.live.log| > 0 && c.live.log[|c.live.log| - 1] == ServerRow(RestorePrepare, c.p.txn)
  }

  ghost predicate AtRecordNext(c: Ctx, d: Disk) {
    d.record.Some? && d.record.value == NextRecord(c.p, d.record.value.writtenAt)
  }

  ghost predicate Archived(c: Ctx, d: Disk) {
    (c.p.txn, Main) in d.archives && d.archives[(c.p.txn, Main)] == DbContent(c.live)
  }

  ghost predicate HasCandidate(c: Ctx, d: Disk) {
    c.p.txn in d.candidates && d.candidates[c.p.txn] == c.candidate
  }

  ghost predicate IsReconciled(c: Ctx, d: Disk) {
    && d.record.Some?
    && d.db == Some(Whole(Reconciled(c.candidate, c.p, c.index, OfRecord(d.record.value))))
  }

  ghost predicate At7(c: Ctx, d: Disk) {
    d.record == Some(c.e) && d.prep == Parsed(c.p) && d.db == Some(Whole(c.live)) && HasCandidate(c, d)
  }

  ghost predicate At8(c: Ctx, d: Disk) {
    && AtRecordNext(c, d) && d.prep == Parsed(c.p) && HasCandidate(c, d)
    && (d.db == Some(Whole(c.live)) || (d.db == None && Archived(c, d)))
  }

  ghost predicate At9(c: Ctx, d: Disk) {
    && AtRecordNext(c, d) && d.prep == Parsed(c.p) && c.p.txn !in d.candidates && Archived(c, d)
    && (d.db == Some(Whole(c.candidate)) || d.db == Some(Torn(c.candidate)))
  }

  ghost predicate At10(c: Ctx, d: Disk) {
    AtRecordNext(c, d) && d.prep == Parsed(c.p) && c.p.txn !in d.candidates && Archived(c, d) && IsReconciled(c, d)
  }

  ghost predicate At11(c: Ctx, d: Disk) {
    AtRecordNext(c, d) && d.prep == Parsed(c.p.(state := Terminal)) && Archived(c, d) && IsReconciled(c, d)
  }

  /** The restore is done: no manifest, record and mirror at E + 1, the reconciled
      candidate at the DB path, the pre-restore database in its archive. */
  ghost predicate At3(c: Ctx, d: Disk) {
    AtRecordNext(c, d) && d.prep == NoManifest && Archived(c, d) && IsReconciled(c, d)
  }

  /** The live database with abort rows added, record E still the authority. */
  ghost predicate AbortBegun(c: Ctx, d: Disk) {
    && d.record == Some(c.e)
    && d.db.Some? && d.db.value.Whole?
    && d.db.value.db == c.live.(log := d.db.value.db.log)
    && c.live.log < d.db.value.db.log
  }

  ghost predicate Aborting(c: Ctx, d: Disk) { AbortBegun(c, d) && d.prep == Parsed(c.p) }
  ghost predicate AbortDone(c: Ctx, d: Disk) { AbortBegun(c, d) && d.prep == NoManifest }

  ghost predicate InRestore(c: Ctx, d: Disk) {
    At7(c, d) || At8(c, d) || At9(c, d) || At10(c, d) || At11(c, d) || At3(c, d) || Aborting(c, d) || AbortDone(c, d)
  }

  /** The order in which a restore moves through its classes. */
  function Order(k: Class): nat {
    match k
    case K7 => 0
    case K8 => 1
    case K9 => 2
    case K10 => 3
    case K11 => 4
    case K3 => 5
    case _ => 6
  }

  /** The pre-restore live database, but for abort rows, is at the DB path or archived. */
  ghost predicate LiveKept(c: Ctx, d: Disk) {
    || Archived(c, d)
    || (d.db.Some? && d.db.value.Whole? && d.db.value.db == c.live.(log := d.db.value.db.log)
        && c.live.log <= d.db.value.db.log)
  }

  /** Each phase is exactly one class of the crash table: the files alone tell them apart. */
  lemma PhaseClass(c: Ctx, d: Disk)
    requires Sound(c)
    ensures At7(c, d) || Aborting(c, d) ==> ClassOf(d) == K7
    ensures At8(c, d) ==> ClassOf(d) == K8
    ensures At9(c, d) ==> ClassOf(d) == K9
    ensures At10(c, d) ==> ClassOf(d) == K10
    ensures At11(c, d) ==> ClassOf(d) == K11
    ensures At3(c, d) || AbortDone(c, d) ==> ClassOf(d) == K3
    ensures InRestore(c, d) ==> LiveKept(c, d)
  {
    EarlyPhaseClass(c, d);
    LatePhaseClass(c, d);
  }

  lemma EarlyPhaseClass(c: Ctx, d: Disk)
    requires Sound(c)
    ensures At7(c, d) || Aborting(c, d) ==> ClassOf(d) == K7
    ensures At8(c, d) ==> ClassOf(d) == K8
    ensures At9(c, d) ==> ClassOf(d) == K9
  {
  }

  lemma LatePhaseClass(c: Ctx, d: Disk)
    requires Sound(c)
    ensures At10(c, d) ==> ClassOf(d) == K10
    ensures At11(c, d) ==> ClassOf(d) == K11
    ensures At3(c, d) || AbortDone(c, d) ==> ClassOf(d) == K3
  {
  }

  // ------------------------------------------------ one write at any point ----

  /** The crash table: which commands may write at all in a class. */
  lemma AllowedByClass(w: Write, d: Disk)
    requires Allowed(w, d)
    ensures w.Commit? ==> ClassOf(d) in {K3, K5b, K7, K8, K9, K10, K11}
    ensures w.Abort? ==> ClassOf(d) in {K5a, K7}
    ensures ClassOf(d).ReadOnly() ==> w.Commit? || w.Abort?
  {
  }

  lemma WriteAt7(c: Ctx, d: Disk, w: Write)
    requires Sound(c) && At7(c, d) && Allowed(w, d)
    ensures w.Commit? || w.Abort?
    ensures At7(c, Apply(w, d)) || At8(c, Apply(w, d)) || Aborting(c, Apply(w, d))
    ensures w.Abort? && w.abort.AbortAudit? <==> Aborting(c, Apply(w, d))
  {
    hide ClassOf, CommitAllowed, AbortAllowed, ApplyCommit, ApplyAbort, Sound, At7, At8, Aborting;
    PhaseClass(c, d);
    AllowedByClass(w, d);
    if w.Commit? {
      CommitAt7(c, d, w.commit);
    } else {
      AbortAt7(c, d, w.abort);
    }
  }

  lemma CommitAt7(c: Ctx, d: Disk, w: CommitWrite)
    requires Sound(c) && At7(c, d) && CommitAllowed(w, d)
    ensures At7(c, ApplyCommit(w, d)) || At8(c, ApplyCommit(w, d))
    ensures !Aborting(c, ApplyCommit(w, d))
  {
    hide ClassOf, IndexOf;
    PhaseClass(c, d);
  }

  lemma AbortAt7(c: Ctx, d: Disk, w: AbortWrite)
    requires Sound(c) && At7(c, d) && AbortAllowed(w, d)
    ensures w.AbortAudit? && Aborting(c, ApplyAbort(w, d))
  {
    hide ClassOf;
    PhaseClass(c, d);
  }

  lemma WriteAt8(c: Ctx, d: Disk, w: Write)
    requires Sound(c) && At8(c, d) && Allowed(w, d)
    ensures w.Commit?
    ensures At8(c, Apply(w, d)) || At9(c, Apply(w, d))
  {
    hide ClassOf;
    PhaseClass(c, d);
    AllowedByClass(w, d);
  }

  lemma WriteAt9(c: Ctx, d: Disk, w: Write)
    requires Sound(c) && At9(c, d) && Allowed(w, d)
    ensures w.Commit?
    ensures At9(c, Apply(w, d)) || At10(c, Apply(w, d))
  {
    hide ClassOf;
    PhaseClass(c, d);
    AllowedByClass(w, d);
    assert w.commit.TxCommit? ==> IndexOf(d, c.p) == Some(c.index);
  }

  lemma WriteAt10(c: Ctx, d: Disk, w: Write)
    requires Sound(c) && At10(c, d) && Allowed(w, d)
    ensures w.Commit?
    ensures At10(c, Apply(w, d)) || At11(c, Apply(w, d))
  {
    hide ClassOf;
    PhaseClass(c, d);
    AllowedByClass(w, d);
  }

  lemma WriteAt11(c: Ctx, d: Disk, w: Write)
    requires Sound(c) && At11(c, d) && Allowed(w, d)
    ensures w.Commit?
    ensures At11(c, Apply(w, d)) || At3(c, Apply(w, d))
  {
    hide ClassOf;
    PhaseClass(c, d);
    AllowedByClass(w, d);
  }

  /** Once the abort row is in, the live hash differs from the index for good: the only
      commit writes left are the quiescing and the temporary file, never record E + 1. */
  lemma WriteAborting(c: Ctx, d: Disk, w: Write)
    requires Sound(c) && Aborting(c, d) && Allowed(w, d)
    ensures w.Abort? || (w.Commit? && (w.commit.Quiesce? || w.commit.DropShm? || w.commit.CommitTmp?))
    ensures Aborting(c, Apply(w, d)) || AbortDone(c, Apply(w, d))
    ensures w.Abort? && w.abort.AbortManifest? <==> AbortDone(c, Apply(w, d))
  {
    PhaseClass(c, d);
    AllowedByClass(w, d);
    if w.Commit? {
      CommitAborting(c, d, w.commit);
    } else {
      AbortAborting(c, d, w.abort);
    }
  }

  lemma CommitAborting(c: Ctx, d: Disk, w: CommitWrite)
    requires Sound(c) && Aborting(c, d) && CommitAllowed(w, d)
    ensures w.Quiesce? || w.DropShm? || w.CommitTmp?
    ensures Aborting(c, ApplyCommit(w, d))
  {
    hide ClassOf;
    PhaseClass(c, d);
  }

  lemma AbortAborting(c: Ctx, d: Disk, w: AbortWrite)
    requires Sound(c) && Aborting(c, d) && AbortAllowed(w, d)
    ensures if w.AbortManifest? then AbortDone(c, ApplyAbort(w, d)) else Aborting(c, ApplyAbort(w, d))
  {
    hide ClassOf;
    PhaseClass(c, d);
  }

  /** One phase follows another: the same one, the next one, or the end. */
  ghost predicate Follows(c: Ctx, d: Disk, next: Disk) {
    || (At7(c, d) && (At7(c, next) || At8(c, next) || Aborting(c, next)))
    || (At8(c, d) && (At8(c, next) || At9(c, next)))
    || (At9(c, d) && (At9(c, next) || At10(c, next)))
    || (At10(c, d) && (At10(c, next) || At11(c, next)))
    || (At11(c, d) && (At11(c, next) || At3(c, next)))
    || (Aborting(c, d) && (Aborting(c, next) || AbortDone(c, next)))
  }

  lemma FollowsInOrder(c: Ctx, d: Disk, next: Disk)
    requires Sound(c) && Follows(c, d, next)
    ensures InRestore(c, d) && InRestore(c, next)
    ensures Order(ClassOf(d)) <= Order(ClassOf(next)) <= 5
    ensures AbortBegun(c, d) ==> AbortBegun(c, next)
  {
    PhaseOrder(c, d);
    PhaseOrder(c, next);
    if AbortBegun(c, d) {
      AbortedIsApart(c, d);
    }
  }

  lemma PhaseOrder(c: Ctx, d: Disk)
    requires Sound(c)
    ensures At7(c, d) || Aborting(c, d) ==> Order(ClassOf(d)) == 0
    ensures At8(c, d) ==> Order(ClassOf(d)) == 1
    ensures At9(c, d) ==> Order(ClassOf(d)) == 2
    ensures At10(c, d) ==> Order(ClassOf(d)) == 3
    ensures At11(c, d) ==> Order(ClassOf(d)) == 4
    ensures At3(c, d) || AbortDone(c, d) ==> Order(ClassOf(d)) == 5
  {
    hide ClassOf, Sound, At7, At8, At9, At10, At11, At3, Aborting, AbortDone;
    PhaseClass(c, d);
  }

  lemma AbortedIsApart(c: Ctx, d: Disk)
    requires Sound(c) && AbortBegun(c, d)
    ensures !At7(c, d) && !At8(c, d) && !At9(c, d) && !At10(c, d) && !At11(c, d)
  {
  }

  /** Any write any command or server can make in mid-restore moves the restore one phase on
      or none; so it is a write of commit or abort. */
  lemma WriteInRestore(c: Ctx, d: Disk, w: Write)
    requires Sound(c) && InRestore(c, d) && ClassOf(d) != K3 && Allowed(w, d)
    ensures w.Commit? || w.Abort?
    ensures Follows(c, d, Apply(w, d))
    ensures w.Abort? && w.abort.AbortAudit? ==> AbortBegun(c, Apply(w, d))
  {
    PhaseClass(c, d);
    if At7(c, d) {
      WriteAt7(c, d, w);
    } else if At8(c, d) {
      WriteAt8(c, d, w);
    } else if At9(c, d) {
      WriteAt9(c, d, w);
    } else if At10(c, d) {
      WriteAt10(c, d, w);
    } else if At11(c, d) {
      WriteAt11(c, d, w);
    } else {
      WriteAborting(c, d, w);
    }
  }

  // -------------------------------------------------------------- all runs ----

  /** No state before the last one of the run is K3. */
  ghost predicate MidRun(d: Disk, ws: seq<Write>) {
    forall i | 0 <= i < |ws| :: ClassOf(After(d, ws[..i])) != K3
  }

  lemma MidRunTail(d: Disk, ws: seq<Write>)
    requires ws != [] && MidRun(d, ws)
    ensures ClassOf(d) != K3 && MidRun(Apply(ws[0], d), ws[1..])
  {
    assert After(d, ws[..0]) == d;
    forall i | 0 <= i < |ws| - 1 ensures ClassOf(After(Apply(ws[0], d), ws[1..][..i])) != K3 {
      assert ws[..i + 1][1..] == ws[1..][..i];
      assert After(d, ws[..i + 1]) == After(Apply(ws[0], d), ws[1..][..i]);
    }
  }

  lemma {:induction false} RunFollows(c: Ctx, d: Disk, ws: seq<Write>)
    requires Sound(c) && InRestore(c, d) && Run(d, ws) && MidRun(d, ws)
    ensures InRestore(c, After(d, ws)) && Order(ClassOf(d)) <= Order(ClassOf(After(d, ws)))
    ensures forall w | w in ws :: w.Commit? || w.Abort?
    ensures AbortBegun(c, d) || (exists w :: w in ws && w.Abort? && w.abort.AbortAudit?) ==> AbortBegun(c, After(d, ws))
    decreases |ws|
  {
    hide ClassOf, Allowed, Apply, Sound, InRestore, Follows, AbortBegun, Order, MidRun;
    if ws != [] {
      MidRunTail(d, ws);
      WriteInRestore(c, d, ws[0]);
      FollowsInOrder(c, d, Apply(ws[0], d));
      RunFollows(c, Apply(ws[0], d), ws[1..]);
      assert ws == [ws[0]] + ws[1..];
    }
  }

  /** Kill and restart anything anywhere between prepare and the end of the restore: every
      state reached is one of its phases, its class never moves back, the pre-restore live
      database is never lost, and only commit and abort have written. Once an abort row is
      in, record E stays the authority. */
  lemma EveryRunStaysInTheRestore(c: Ctx, d: Disk, ws: seq<Write>)
    requires Sound(c) && InRestore(c, d) && Run(d, ws) && MidRun(d, ws)
    ensures InRestore(c, After(d, ws))
    ensures ClassOf(After(d, ws)) in {K7, K8, K9, K10, K11, K3}
    ensures Order(ClassOf(d)) <= Order(ClassOf(After(d, ws)))
    ensures LiveKept(c, After(d, ws))
    ensures forall w | w in ws :: w.Commit? || w.Abort?
    ensures AbortBegun(c, d) || (exists w :: w in ws && w.Abort? && w.abort.AbortAudit?) ==> AbortBegun(c, After(d, ws))
  {
    hide ClassOf, Sound, At7, At8, At9, At10, At11, At3, Aborting, AbortDone, Run, MidRun, After;
    RunFollows(c, d, ws);
    PhaseClass(c, After(d, ws));
  }

  /** No server start in mid-restore opens the database for writing, and none trusts its identity. */
  lemma NoWritableServerInMidRestore(c: Ctx, d: Disk, ws: seq<Write>)
    requires Sound(c) && At7(c, d) && Run(d, ws) && MidRun(d, ws) && ClassOf(After(d, ws)) != K3
    ensures ClassOf(After(d, ws)).ReadOnly() && Authority(Observe(After(d, ws))).Err?
    ensures forall db :: !Allowed(Server(db), After(d, ws))
  {
    hide Sound, At8, At9, At10, At11, At3, Aborting, AbortDone, Run, MidRun, After, Classify, Authority, Observe, LiveKept;
    EveryRunStaysInTheRestore(c, d, ws);
    AuthorityIsK3(Observe(After(d, ws)));
  }

  /** How a restore can end: with record E and the live database, or with record and mirror
      at E + 1 and the reconciled candidate, the live database archived. */
  lemma RestoreEnds(c: Ctx, d: Disk, ws: seq<Write>)
    requires Sound(c) && At7(c, d) && Run(d, ws) && MidRun(d, ws) && ClassOf(After(d, ws)) == K3
    ensures At3(c, After(d, ws)) || AbortDone(c, After(d, ws))
    ensures At3(c, After(d, ws)) ==>
      After(d, ws).record.value.epoch == c.e.epoch + 1
      && After(d, ws).db.value.db.mirror == Some(Mirror(c.e.instance, c.e.epoch + 1, OfRecord(After(d, ws).record.value)))
      && After(d, ws).db.value.db.plane == c.candidate.plane.(scratch := {})
      && After(d, ws).db.value.db.log == c.candidate.log + [ServerRow(RestoreCommit, c.p.txn)]
    ensures At3(c, After(d, ws)) ==>
      forall t | t in c.index.entries && t in DataPlane.RowsAt(c.candidate.plane, c.p.instance, c.p.previousEpoch) ::
        TenantRow(t, DataPlane.RowsAt(c.candidate.plane, c.p.instance, c.p.previousEpoch)[t].replay, c.p.txn) in After(d, ws).db.value.db.events
    ensures (exists w :: w in ws && w.Abort? && w.abort.AbortAudit?) ==> AbortDone(c, After(d, ws))
  {
    hide ClassOf, At7, At8, At9, At10, At11, At3, Aborting, AbortDone, Run, MidRun, After, LiveKept;
    EveryRunStaysInTheRestore(c, d, ws);
    PhaseClass(c, After(d, ws));
    if At3(c, After(d, ws)) {
      DoneHolds(c, After(d, ws));
    }
  }

  lemma DoneHolds(c: Ctx, d: Disk)
    requires At3(c, d)
    ensures d.record.Some? && d.record.value.epoch == c.p.newEpoch
    ensures d.db.Some? && d.db.value.Whole?
    ensures d.db.value.db.mirror == Some(Mirror(c.p.instance, c.p.newEpoch, OfRecord(d.record.value)))
    ensures d.db.value.db.plane == c.candidate.plane.(scratch := {})
    ensures d.db.value.db.log == c.candidate.log + [ServerRow(RestoreCommit, c.p.txn)]
    ensures forall t | t in c.index.entries && t in DataPlane.RowsAt(c.candidate.plane, c.p.instance, c.p.previousEpoch) ::
              TenantRow(t, DataPlane.RowsAt(c.candidate.plane, c.p.instance, c.p.previousEpoch)[t].replay, c.p.txn) in d.db.value.db.events
  {
  }

  /** An archive holding a database keeps it through every later run, other restores with
      the same transaction id included, until `--delete-archives` names it. */
  lemma {:induction false} ArchiveLasts(d: Disk, ws: seq<Write>, slot: (Id, Slot))
    requires Run(d, ws) && slot in d.archives && d.archives[slot] != Empty
    requires Orphans(DeleteArchive(slot)) !in ws
    ensures slot in After(d, ws).archives && After(d, ws).archives[slot] == d.archives[slot]
    decreases |ws|
  {
    if ws != [] {
      ArchiveKept(d, ws[0], slot);
      assert ws == [ws[0]] + ws[1..];
      ArchiveLasts(Apply(ws[0], d), ws[1..], slot);
    }
  }

  lemma ArchiveKept(d: Disk, w: Write, slot: (Id, Slot))
    requires Allowed(w, d) && w != Orphans(DeleteArchive(slot))
    requires slot in d.archives && d.archives[slot] != Empty
    ensures slot in Apply(w, d).archives && Apply(w, d).archives[slot] == d.archives[slot]
  {
    hide ClassOf, CommitAllowed, ApplyCommit;
    if w.Commit? {
      CommitKeepsArchive(d, w.commit, slot);
    }
  }

  lemma CommitKeepsArchive(d: Disk, w: CommitWrite, slot: (Id, Slot))
    requires CommitAllowed(w, d) && slot in d.archives && d.archives[slot] != Empty
    ensures slot in ApplyCommit(w, d).archives && ApplyCommit(w, d).archives[slot] == d.archives[slot]
  {
    hide ClassOf, Verifies, IndexOf, Step5;
  }

  // ------------------------------------------------- a taken archive name ----

  /** The archive name of this restore already holds another database: its transaction id was
      used before. */
  ghost predicate SlotTaken(c: Ctx, d: Disk) {
    && (c.p.txn, Main) in d.archives
    && d.archives[(c.p.txn, Main)] != Empty && d.archives[(c.p.txn, Main)] != DbContent(c.live)
  }

  ghost predicate Blocked(c: Ctx, d: Disk) {
    At8(c, d) && d.db == Some(Whole(c.live)) && SlotTaken(c, d)
  }

  lemma BlockedStep(c: Ctx, d: Disk, w: Write)
    requires Sound(c) && Blocked(c, d) && Allowed(w, d)
    ensures Blocked(c, Apply(w, d))
  {
    hide Reconciled, IndexOf, Verifies;
    PhaseClass(c, d);
    AllowedByClass(w, d);
  }

  /** `prepare` and step 3 do not look at the archive. If its name is taken, writing record E + 1
      strands the restore: no run of any command ever leaves K8 again. */
  lemma {:induction false} ATakenArchiveStrandsTheRestore(c: Ctx, d: Disk, ws: seq<Write>)
    requires Sound(c) && Blocked(c, d) && Run(d, ws)
    ensures Blocked(c, After(d, ws)) && ClassOf(After(d, ws)) == K8
    decreases |ws|
  {
    if ws == [] {
      PhaseClass(c, d);
    } else {
      BlockedStep(c, d, ws[0]);
      ATakenArchiveStrandsTheRestore(c, Apply(ws[0], d), ws[1..]);
    }
  }

  /** And step 3 is allowed to write it. */
  lemma StepThreeIgnoresTheArchive(c: Ctx, d: Disk, at: nat)
    requires Sound(c) && At7(c, d) && SlotTaken(c, d) && IndexOf(d, c.p) == Some(c.index)
    requires Empties(d.sidecars) && Shm !in d.sidecars
    ensures Allowed(Commit(RecordNext(at)), d) && Blocked(c, Apply(Commit(RecordNext(at)), d))
  {
    PhaseClass(c, d);
  }

  // --------------------------------------------- prepare, abort and retire ----

  /** A kill in `prepare` leaves K3, and K7 only once the manifest is in place; the
      identity and the mirror never move. */
  lemma PrepareKills(d: Disk, w: PrepareWrite)
    requires PrepareAllowed(w, d)
    ensures ClassOf(d) == K3
    ensures ClassOf(ApplyPrepare(w, d)) == (if w.ManifestReady? then K7 else K3)
    ensures ApplyPrepare(w, d).record == d.record && ReadMirror(ApplyPrepare(w, d).db) == ReadMirror(d.db)
    ensures ApplyPrepare(w, d).archives == d.archives
  {
  }

  /** A kill in `abort` leaves the class it started in, where abort may run again, or K3. */
  lemma AbortKills(d: Disk, w: AbortWrite)
    requires AbortAllowed(w, d)
    ensures ClassOf(d) in {K5a, K7}
    ensures ClassOf(ApplyAbort(w, d)) == (if w.AbortManifest? then K3 else ClassOf(d))
    ensures ApplyAbort(w, d).record == d.record && ReadMirror(ApplyAbort(w, d).db) == ReadMirror(d.db)
    ensures ApplyAbort(w, d).archives == d.archives
  {
  }

  /** `commit --retire` from K5b: K5b until the manifest is gone, then K3, same authority. */
  lemma RetireKills(d: Disk, w: CommitWrite)
    requires ClassOf(d) == K5b && CommitAllowed(w, d)
    ensures w.RetireAudit? || w.RetireArtifact? || w.RetireManifest?
    ensures ClassOf(ApplyCommit(w, d)) == (if w.RetireManifest? then K3 else K5b)
    ensures ApplyCommit(w, d).record == d.record && ReadMirror(ApplyCommit(w, d).db) == ReadMirror(d.db)
  {
  }
}

/** What a restore command can read, and the two decisions made from it alone: the
    D-1 class (`classify`, server/src/restore.rs) and the server's authority
    (`reconcile` and `authority`, server/src/identity.rs). */
module RestoreState {
  import opened Wrappers
  import opened RestoreTypes

  datatype Class = K1 | K2 | K3 | K4 | K5a | K5b | K6 | K7 | K8 | K9 | K10 | K11 | K12 {
    predicate ReadOnly() { !(K1? || K3? || K4?) }
  }

  /** The mirror read without writing: no file, a file a read-only open cannot read, no row, a row. */
  datatype Mirrored = Absent | Unreadable | Rowless | Row(mirror: Mirror)
  datatype Prep = NoManifest | Unparsable | Parsed(manifest: Manifest)

  datatype Observed = Observed(x: Option<(Record, Sha)>, m: Mirrored, hotJournal: bool, p: Prep, c: bool, dx: bool)

  predicate MirrorIs(m: Mirror, instance: Id, epoch: nat, sha: Sha) {
    m.instance == instance && m.epoch == epoch && m.sha == sha
  }

  function Classify(o: Observed): Class {
    if o.x.None? then K1
    else
      var (x, xsha) := o.x.value;
      var behind := o.m.Row? && o.m.mirror.epoch >= 0 && x.epoch < o.m.mirror.epoch;
      if o.m.Row? && (o.m.mirror.instance != x.instance || behind) then K2
      else
        var mIsX := o.m.Row? && MirrorIs(o.m.mirror, x.instance, x.epoch, xsha);
        match o.p
        case NoManifest => if mIsX then K3 else K4
        case Unparsable =>
          if mIsX && !o.dx then K5a
          else if mIsX && o.dx && !o.c then K5b
          else K6
        case Parsed(p) =>
          var pre := x.epoch == p.previousEpoch && xsha == p.previousRecord;
          var post := x.epoch == p.newEpoch && x.instance == p.instance && x.txn == p.txn
                      && x.restoredDb == p.candidateDb && x.transitionSet == p.transitionSet;
          var prepared := p.state == Prepared;
          var mIsE := o.m.Row? && MirrorIs(o.m.mirror, p.instance, p.previousEpoch, p.previousRecord);
          var mBehind := (o.m.Row? && 0 <= o.m.mirror.epoch < p.newEpoch) || (o.hotJournal && o.m.Unreadable?);
          if pre && mIsX && prepared then K7
          else if post && prepared && o.c && (mIsE || o.m.Absent?) then K8
          else if post && prepared && !o.c && mBehind then K9
          else if post && mIsX && prepared then K10
          else if post && mIsX && !prepared then K11
          else K12
  }

  // ------------------------------------------------------------ authority ----

  datatype Reason = Missing | Corrupt | BehindDb | ReconciliationRequired
  datatype Verified = Verified(instance: Id, epoch: nat, sha: Sha)

  function Reconcile(x: Record, xsha: Sha, mirror: Option<Mirror>): Result<Verified, Reason> {
    match mirror
    case None => Err(ReconciliationRequired)
    case Some(m) =>
      if m.instance != x.instance then Err(BehindDb)
      else if m.epoch < 0 then Err(ReconciliationRequired)
      else if m.epoch > x.epoch then Err(BehindDb)
      else if m.epoch < x.epoch then Err(ReconciliationRequired)
      else if m.sha != xsha then Err(BehindDb)
      else Ok(Verified(x.instance, x.epoch, xsha))
  }

  /** `authority` on the observations; a missing and a corrupt record refuse alike here. */
  function Authority(o: Observed): Result<Verified, Reason> {
    match o.x
    case None => Err(Corrupt)
    case Some((x, xsha)) =>
      var verified := Reconcile(x, xsha, if o.m.Row? then Some(o.m.mirror) else None);
      if verified.Ok? && !o.p.NoManifest? then Err(ReconciliationRequired) else verified
  }

  /** The server trusts its identity in exactly the one class with no restore in sight,
      and K2 keeps the incident's own reason. */
  lemma AuthorityIsK3(o: Observed)
    ensures Authority(o).Ok? <==> Classify(o) == K3
    ensures Classify(o) == K2 ==> Authority(o) == Err(BehindDb)
    ensures Authority(o).Ok? ==> o.x.Some? && o.m.Row? && !Classify(o).ReadOnly()
    ensures Authority(o).Ok? ==> Authority(o).value == Verified(o.x.value.0.instance, o.x.value.0.epoch, o.x.value.1)
    ensures Authority(o).Ok? ==> MirrorIs(o.m.mirror, o.x.value.0.instance, o.x.value.0.epoch, o.x.value.1)
  {
  }

  /** While a manifest is present, parsable or not, and the record reads, the class is read-only.
      Without a readable record it is K1, which is not: the record is what the rule rests on. */
  lemma ManifestMeansReadOnly(o: Observed)
    requires !o.p.NoManifest?
    ensures Classify(o).ReadOnly() <==> o.x.Some?
    ensures Classify(o) != K3 && Classify(o) != K4
  {
  }

  /** The crash table by what an operator can check: which observations each class stands for.
      The classes of a parsed manifest are told apart by record and candidate first. */
  lemma CrashTable(o: Observed)
    ensures Classify(o) == K1 <==> o.x.None?
    ensures Classify(o) == K2 <==> Authority(o) == Err(BehindDb) && !SameEpochOtherRecord(o)
    ensures Classify(o) == K4 <==> o.p.NoManifest? && Authority(o).Err? && Classify(o) !in {K1, K2}
    ensures Classify(o) in {K5a, K5b} ==> o.p.Unparsable? && Authority(o.(p := NoManifest)).Ok?
    ensures o.p.Unparsable? && Classify(o) !in {K1, K2} ==> Classify(o) in {K5a, K5b, K6}
    ensures o.p.Parsed? && Classify(o) !in {K1, K2} ==> Classify(o) in {K7, K8, K9, K10, K11, K12}
    ensures Classify(o) == K7 ==> o.x.value.0.epoch == o.p.manifest.previousEpoch && Authority(o.(p := NoManifest)).Ok?
    ensures Classify(o) in {K8, K9, K10, K11} ==> o.x.value.0.epoch == o.p.manifest.newEpoch
    ensures Classify(o) in {K10, K11} ==> Authority(o.(p := NoManifest)).Ok?
    ensures Classify(o) in {K8, K9} && o.p.manifest.previousEpoch < o.p.manifest.newEpoch ==> Authority(o.(p := NoManifest)).Err?
    ensures Classify(o) == K8 ==> o.c
    ensures Classify(o) == K9 ==> !o.c
  {
  }

  /** A mirror of the record's own epoch that is not its mirror: an incident to the server, which
      the crash table leaves to K4, K6 or K12. */
  predicate SameEpochOtherRecord(o: Observed) {
    o.x.Some? && o.m.Row? && o.m.mirror.instance == o.x.value.0.instance && o.m.mirror.epoch == o.x.value.0.epoch
  }

  // ----------------------------------------------------------------- disk ----

  /** The file at the DB path: a whole database, or one cut inside a transaction, with
      the hot journal that rolls it back to `before`. */
  datatype DbFile = Whole(db: Db) | Torn(before: Db)

  datatype Sidecar = Wal | Shm
  datatype Slot = Main | Side(sidecar: Sidecar)
  datatype Content = Empty | DbContent(db: Db) | Bytes(n: nat)
  datatype Tmp = RecordTmp | ManifestTmp

  /** Every durable object the restore commands touch. `sidecars` holds the -wal and
      -shm files (a -journal exists exactly when the file is torn); `archives` the
      pre-restore-<txn>.db files; `dirs` and `tmps` are in the identity directory. */
  datatype Disk = Disk(
    record: Option<Record>,
    prep: Prep,
    tmps: set<Tmp>,
    dirs: map<Id, Dir>,
    db: Option<DbFile>,
    sidecars: map<Sidecar, Content>,
    candidates: map<Id, Db>,
    candidateTmps: set<Id>,
    archives: map<(Id, Slot), Content>)

  function ReadMirror(db: Option<DbFile>): Mirrored {
    match db
    case None => Absent
    case Some(Torn(_)) => Mirrored.Unreadable
    case Some(Whole(db)) => if db.mirror.Some? then Row(db.mirror.value) else Rowless
  }

  function Observe(d: Disk): Observed {
    Observed(
      if d.record.Some? then Some((d.record.value, OfRecord(d.record.value))) else None,
      ReadMirror(d.db),
      d.db.Some? && d.db.value.Torn?,
      d.prep,
      if d.prep.Parsed? then d.prep.manifest.txn in d.candidates else d.candidates != map[],
      d.record.Some? && d.record.value.txn in d.dirs)
  }

  function ClassOf(d: Disk): Class { Classify(Observe(d)) }

  /** A K3 with no candidate, candidate temporary or restore directory left. */
  predicate CleanK3(d: Disk) {
    ClassOf(d) == K3 && d.candidates == map[] && d.candidateTmps == {} && d.dirs == map[]
  }

  /** `archive_move`: an existing target is accepted only if it is empty or identical. */
  predicate SlotFree(d: Disk, slot: (Id, Slot), content: Content) {
    slot in d.archives ==> d.archives[slot] == Empty || d.archives[slot] == content
  }
}

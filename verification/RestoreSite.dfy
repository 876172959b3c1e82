/** The restore commands themselves, as methods over the files. Every durable write
    goes through `Do`, which records it: a kill leaves one of the recorded states, so
    what `RestoreProtocol` proves of all runs covers a kill at any point of a method.
    Source: server/src/restore.rs. */
module RestoreSite {
  import opened Wrappers
  import opened RestoreTypes
  import opened RestoreState
  import opened RestoreProtocol
  import opened Wire
  import DataPlane

  /** A manifest `prepare` can have written: it parses, and names a record and a
      candidate of the epoch before. */
  predicate Named(p: Manifest) {
    && p.newEpoch == p.previousEpoch + 1
    && p.previousRecord.OfRecord?
    && p.previousRecord.record.instance == p.instance && p.previousRecord.record.epoch == p.previousEpoch
    && p.candidateDb.OfDb?
    && p.candidateDb.db.mirror == Some(Mirror(p.instance, p.previousEpoch, p.previousRecord))
  }

  lemma {:induction false} RunAppend(d: Disk, ws: seq<Write>, w: Write)
    requires Run(d, ws) && Allowed(w, After(d, ws))
    ensures Run(d, ws + [w]) && After(d, ws + [w]) == Apply(w, After(d, ws))
    decreases |ws|
  {
    if ws == [] {
      assert [w][1..] == [];
    } else {
      RunAppend(Apply(ws[0], d), ws[1..], w);
      assert (ws + [w])[1..] == ws[1..] + [w];
    }
  }

  lemma InstalledIgnoresScratch(pl: Plane, instance: Id, epoch: nat, entries: map<Id, IndexEntry>, files: set<Artifact>)
    ensures DataPlane.Installed(pl.(scratch := {}), instance, epoch, entries, files)
       <==> DataPlane.Installed(pl, instance, epoch, entries, files)
  {
    var bare := pl.(scratch := {});
    assert DataPlane.RowsAt(bare, instance, epoch) == DataPlane.RowsAt(pl, instance, epoch);
    assert forall k | k in pl.profiles :: DataPlane.HeadAt(bare, instance, k) == DataPlane.HeadAt(pl, instance, k);
    if DataPlane.Readable(pl, instance) {
      assert DataPlane.HeadsOf(bare, instance) == DataPlane.HeadsOf(pl, instance);
    }
  }

  lemma CommitStep(c: Ctx, d: Disk, w: CommitWrite)
    requires Sound(c) && InRestore(c, d) && CommitAllowed(w, d)
    ensures InRestore(c, ApplyCommit(w, d)) && Order(ClassOf(d)) <= Order(ClassOf(ApplyCommit(w, d))) <= 5
  {
    if ClassOf(d) == K3 {
      CommitAfterEnd(c, d, w);
    } else {
      WriteInRestore(c, d, Commit(w));
      FollowsInOrder(c, d, Apply(Commit(w), d));
    }
  }

  /** Once the restore has ended, a commit only removes the empty artifact directory. */
  lemma CommitAfterEnd(c: Ctx, d: Disk, w: CommitWrite)
    requires Sound(c) && InRestore(c, d) && ClassOf(d) == K3 && CommitAllowed(w, d)
    ensures w.RetireDir? && InRestore(c, ApplyCommit(w, d)) && ClassOf(ApplyCommit(w, d)) == K3
  {
    PhaseClass(c, d);
  }

  // ----------------------------------------------- when a commit can finish ----

  /** The artifacts are intact and the candidate passes `verify_installed`. */
  ghost predicate Good(c: Ctx, d: Disk) {
    IndexOf(d, c.p) == Some(c.index) && Verifies(d, c.p, c.candidate)
  }

  lemma EightIsReadable(d: Disk)
    requires ClassOf(d) == K8
    ensures d.prep.Parsed? && (d.db.Some? ==> d.db.value.Whole?)
  {
  }

  predicate SideFree(d: Disk, s: Sidecar)
    requires d.prep.Parsed?
  {
    s in d.sidecars ==> SlotFree(d, (d.prep.manifest.txn, Side(s)), d.sidecars[s])
  }

  /** Every archive name the install needs is free, empty or holds the same bytes. */
  predicate RoomToArchive(d: Disk)
    requires d.prep.Parsed?
  {
    && SideFree(d, Wal) && SideFree(d, Shm)
    && (d.db.Some? && d.db.value.Whole? ==> SlotFree(d, (d.prep.manifest.txn, Main), DbContent(d.db.value.db)))
  }

  function Quiesced(d: Disk): Disk { d.(sidecars := Checkpointed(d.sidecars) - {Shm}) }

  function ReadyToArchive(d: Disk): Disk {
    if d.db.Some? then d.(sidecars := Checkpointed(d.sidecars)) else d
  }

  /** Exactly when one uninterrupted `restore commit` ends the restore. */
  ghost predicate CanFinish(c: Ctx, d: Disk) {
    || (At7(c, d) && Good(c, d) && RoomToArchive(Quiesced(d)))
    || (At8(c, d) && Good(c, d) && RoomToArchive(ReadyToArchive(d)))
    || (At9(c, d) && Good(c, d))
    || (At10(c, d) && Good(c, d))
    || At11(c, d)
  }

  function MainSlots(archives: map<(Id, Slot), Content>): map<(Id, Slot), Content> {
    map slot | slot in archives && slot.1 == Main :: archives[slot]
  }

  lemma SameMainSlot(a: map<(Id, Slot), Content>, b: map<(Id, Slot), Content>, txn: Id)
    requires MainSlots(a) == MainSlots(b)
    ensures (txn, Main) in a <==> (txn, Main) in b
    ensures (txn, Main) in a ==> a[(txn, Main)] == b[(txn, Main)]
  {
    assert (txn, Main) in a <==> (txn, Main) in MainSlots(a);
    assert (txn, Main) in b <==> (txn, Main) in MainSlots(b);
    assert (txn, Main) in a ==> MainSlots(a)[(txn, Main)] == a[(txn, Main)];
  }

  lemma SameMainSlots(a: map<(Id, Slot), Content>, b: map<(Id, Slot), Content>)
    requires forall slot: (Id, Slot) | slot.1 == Main :: (slot in a <==> slot in b) && (slot in a ==> a[slot] == b[slot])
    ensures MainSlots(a) == MainSlots(b)
  {
  }

  ghost predicate LiveArchived(before: Disk, d: Disk)
    requires before.prep.Parsed?
  {
    && (before.db.Some? && before.db.value.Whole? ==>
          MainSlots(d.archives) == MainSlots(before.archives)[(before.prep.manifest.txn, Main) := DbContent(before.db.value.db)])
    && (before.db.None? ==> MainSlots(d.archives) == MainSlots(before.archives))
  }

  lemma ArchivesOnlyLive(before: Disk, d: Disk)
    requires before.prep.Parsed? && (before.db.Some? ==> before.db.value.Whole?)
    requires d.prep == before.prep && d.db == before.db && MainSlots(d.archives) == MainSlots(before.archives)
    ensures var slot := (d.prep.manifest.txn, Main);
            d.db.Some? ==> (SlotFree(d, slot, DbContent(d.db.value.db)) <==> SlotFree(before, slot, DbContent(d.db.value.db)))
    ensures LiveArchived(before, if d.db.Some? then ApplyCommit(ArchiveDb, d) else d)
  {
    SameMainSlot(before.archives, d.archives, d.prep.manifest.txn);
    if d.db.Some? {
      assert MainSlots(ApplyCommit(ArchiveDb, d).archives)
             == MainSlots(d.archives)[(d.prep.manifest.txn, Main) := DbContent(d.db.value.db)];
    }
  }

  /** The files after step 4: the candidate at the DB path, what was there archived. */
  ghost predicate InstalledFrom(before: Disk, d: Disk)
    requires before.prep.Parsed? && before.prep.manifest.txn in before.candidates
  {
    var txn := before.prep.manifest.txn;
    && d == before.(db := Some(Whole(before.candidates[txn])), candidates := before.candidates - {txn},
                    sidecars := map[], archives := d.archives)
    && LiveArchived(before, d)
  }

  /** The database a reader that may roll back sees. */
  function Logical(file: DbFile): Db {
    match file
    case Whole(db) => db
    case Torn(before) => before
  }

  /** Record E + 1 is in place and the exact candidate is at the DB path. */
  predicate BeforeStep5(d: Disk) {
    && d.prep.Parsed? && Named(d.prep.manifest) && d.prep.manifest.state == Prepared
    && d.record.Some? && d.record.value == NextRecord(d.prep.manifest, d.record.value.writtenAt)
    && d.prep.manifest.txn !in d.candidates
    && d.db.Some? && d.db.value.Whole? && OfDb(d.db.value.db) == d.prep.manifest.candidateDb
  }

  lemma Step5Class(d: Disk)
    requires BeforeStep5(d)
    ensures ClassOf(d) == K9
    ensures Verifies(d, d.prep.manifest, d.db.value.db) ==> Step5(d)
  {
  }

  lemma Step5TornClass(before: Disk, d: Disk)
    requires BeforeStep5(before) && Verifies(before, before.prep.manifest, before.db.value.db)
    requires d == before.(db := Some(Torn(before.db.value.db)))
    ensures ClassOf(d) == K9 && Step5(d)
  {
  }

  function Step5Done(before: Disk): Disk
    requires before.prep.Parsed? && before.db.Some? && before.db.value.Whole? && before.record.Some?
    requires IndexOf(before, before.prep.manifest).Some?
  {
    var p := before.prep.manifest;
    before.(db := Some(Whole(Reconciled(before.db.value.db, p, IndexOf(before, p).value, OfRecord(before.record.value)))))
  }

  lemma Step5Lands(before: Disk, d: Disk)
    requires BeforeStep5(before) && Verifies(before, before.prep.manifest, before.db.value.db)
    requires d == Step5Done(before)
    ensures ClassOf(d) == K10 && Verifies(d, d.prep.manifest, d.db.value.db)
  {
    var p := before.prep.manifest;
    InstalledIgnoresScratch(before.db.value.db.plane, p.instance, p.previousEpoch,
                            IndexOf(before, p).value.entries, before.dirs[p.txn].files);
  }

  lemma TerminalIs11(d: Disk, tmps: set<Tmp>)
    requires ClassOf(d) == K10
    ensures ClassOf(d.(prep := Parsed(d.prep.manifest.(state := Terminal)), tmps := tmps)) == K11
  {
  }

  predicate CandidateIntact(d: Disk) {
    && d.prep.Parsed? && d.prep.manifest.txn in d.candidates
    && OfDb(d.candidates[d.prep.manifest.txn]) == d.prep.manifest.candidateDb
  }

  function RolledBack(d: Disk): Disk
    requires d.db.Some?
  {
    d.(db := Some(Whole(Logical(d.db.value))))
  }

  function AfterInstall(d: Disk): Disk
    requires d.prep.Parsed? && d.prep.manifest.txn in d.candidates
  {
    d.(db := Some(Whole(d.candidates[d.prep.manifest.txn])), candidates := d.candidates - {d.prep.manifest.txn}, sidecars := map[])
  }

  /** The files after the manifest and the artifacts are retired. */
  function Closed(d: Disk): Disk
    requires d.record.Some?
  {
    d.(prep := NoManifest, dirs := d.dirs - {d.record.value.txn})
  }

  /** Record E + 1 is in place and some file is at the DB path, the candidate gone from its name. */
  predicate CandidateInstalled(d: Disk) {
    && d.prep.Parsed? && Named(d.prep.manifest) && d.prep.manifest.state == Prepared
    && d.record.Some? && d.record.value == NextRecord(d.prep.manifest, d.record.value.writtenAt)
    && d.prep.manifest.txn !in d.candidates
    && d.db.Some? && (d.db.value.Torn? ==> ClassOf(d) == K9)
  }

  predicate PassesStep5(d: Disk)
    requires d.prep.Parsed? && d.db.Some?
  {
    && OfDb(Logical(d.db.value)) == d.prep.manifest.candidateDb
    && Verifies(d, d.prep.manifest, Logical(d.db.value))
  }

  lemma InstalledReady(before: Disk, d: Disk)
    requires ClassOf(before) == K8 && Named(before.prep.manifest) && InstalledFrom(before, d)
    ensures CandidateInstalled(d) && d == AfterInstall(before).(archives := d.archives)
    ensures PassesStep5(d) <==> PassesStep5(AfterInstall(before))
  {
  }

  // Each phase through the eyes of the code: what its checks see is what `CanFinish` says.

  lemma See7(c: Ctx, d: Disk)
    requires Sound(c) && (At7(c, d) || Aborting(c, d))
    ensures && CandidateIntact(d) && IndexOf(d, c.p).Some?
            && LiveUnchanged(Quiesced(d), IndexOf(d, c.p).value)
            ==> At7(c, d) && IndexOf(d, c.p) == Some(c.index)
    ensures CanFinish(c, d) ==> && CandidateIntact(d) && IndexOf(d, c.p).Some?
                                && LiveUnchanged(Quiesced(d), IndexOf(d, c.p).value)
  {
    PhaseClass(c, d);
  }

  lemma Record7(c: Ctx, before: Disk, d: Disk, at: nat)
    requires Sound(c) && At7(c, before)
    requires d == Quiesced(before).(record := Some(NextRecord(c.p, at)), tmps := d.tmps)
    ensures At8(c, d) && (CanFinish(c, before) <==> CanFinish(c, d))
  {
    PhaseClass(c, before);
    PhaseClass(c, d);
    assert RoomToArchive(ReadyToArchive(d)) <==> RoomToArchive(Quiesced(before));
    assert Good(c, before) <==> Good(c, d);
  }

  lemma See8(c: Ctx, d: Disk)
    requires Sound(c) && At8(c, d)
    ensures CanFinish(c, d) <==> RoomToArchive(ReadyToArchive(d)) && PassesStep5(AfterInstall(d))
  {
    FinishFrom8(c, d);
    GoodInstalled(c, d, AfterInstall(d));
  }

  lemma FinishFrom8(c: Ctx, d: Disk)
    requires Sound(c) && At8(c, d)
    ensures CanFinish(c, d) <==> Good(c, d) && RoomToArchive(ReadyToArchive(d))
  {
    PhaseClass(c, d);
  }

  lemma GoodInstalled(c: Ctx, d: Disk, installed: Disk)
    requires Sound(c) && installed.dirs == d.dirs && installed.db == Some(Whole(c.candidate)) && installed.prep == Parsed(c.p)
    ensures PassesStep5(installed) <==> Good(c, d)
  {
    hide DataPlane.Installed;
    assert IndexOf(installed, c.p) == IndexOf(d, c.p);
  }

  lemma End8(c: Ctx, before: Disk, d: Disk)
    requires Sound(c) && At8(c, before) && PassesStep5(AfterInstall(before)) && LiveArchived(before, d)
    requires d == Closed(Step5Done(AfterInstall(before))).(tmps := d.tmps, archives := d.archives)
    ensures At3(c, d) && c.p.txn !in d.dirs
  {
    if before.db.None? {
      SameMainSlot(before.archives, d.archives, c.p.txn);
    } else {
      assert (c.p.txn, Main) in MainSlots(d.archives);
    }
  }

  lemma See9(c: Ctx, d: Disk)
    requires Sound(c) && At9(c, d)
    ensures CandidateInstalled(d) && (CanFinish(c, d) <==> PassesStep5(d))
  {
    PhaseClass(c, d);
  }

  lemma End9(c: Ctx, before: Disk, d: Disk)
    requires Sound(c) && At9(c, before) && PassesStep5(before)
    requires d == Closed(Step5Done(RolledBack(before))).(tmps := d.tmps)
    ensures At3(c, d) && c.p.txn !in d.dirs
  {
  }

  lemma See10(c: Ctx, d: Disk)
    requires Sound(c) && At10(c, d)
    ensures CanFinish(c, d) <==> Verifies(d, c.p, d.db.value.db)
    ensures forall tmps: set<Tmp> :: At3(c, Closed(d).(tmps := tmps))
  {
    PhaseClass(c, d);
    if IndexOf(d, c.p).Some? {
      InstalledIgnoresScratch(c.candidate.plane, c.p.instance, c.p.previousEpoch, c.index.entries, d.dirs[c.p.txn].files);
    }
  }

  // ------------------------------------- a killed commit can still be finished ----

  lemma FinishAt7(c: Ctx, d: Disk, w: CommitWrite)
    requires Sound(c) && At7(c, d) && CanFinish(c, d) && CommitAllowed(w, d)
    ensures CanFinish(c, ApplyCommit(w, d))
  {
    if w.RecordNext? {
      Finish7Records(c, d, w.at);
    } else {
      Finish7Stays(c, d, w);
    }
  }

  lemma Finish7Records(c: Ctx, d: Disk, at: nat)
    requires Sound(c) && At7(c, d) && CanFinish(c, d) && CommitAllowed(RecordNext(at), d)
    ensures CanFinish(c, ApplyCommit(RecordNext(at), d))
  {
    SeesQuiesced(c, d, at);
    hide CanFinish, CommitAllowed, ClassOf, Empties, Good;
    Record7(c, d, ApplyCommit(RecordNext(at), d), at);
  }

  lemma SeesQuiesced(c: Ctx, d: Disk, at: nat)
    requires CommitAllowed(RecordNext(at), d)
    ensures Empties(d.sidecars) && Shm !in d.sidecars && Quiesced(d) == d
  {
    hide ClassOf, IndexOf;
    assert Quiesced(d).sidecars == d.sidecars;
  }

  lemma Finish7Stays(c: Ctx, d: Disk, w: CommitWrite)
    requires Sound(c) && At7(c, d) && CanFinish(c, d) && CommitAllowed(w, d) && !w.RecordNext?
    ensures CanFinish(c, ApplyCommit(w, d))
  {
    StaysAt7(c, d, w);
    var next := ApplyCommit(w, d);
    SameArtifacts(c, d, next);
    FinishFrom7(c, d);
    FinishFrom7(c, next);
    hide CanFinish, ApplyCommit, CommitAllowed, Good;
  }

  lemma FinishFrom7(c: Ctx, d: Disk)
    requires Sound(c) && At7(c, d)
    ensures CanFinish(c, d) <==> Good(c, d) && RoomToArchive(Quiesced(d))
  {
    hide Good, RoomToArchive, ClassOf;
    PhaseClass(c, d);
  }

  /** Before the record is written the archives see the same files, quiesced or not. */
  lemma StaysAt7(c: Ctx, d: Disk, w: CommitWrite)
    requires Sound(c) && At7(c, d) && CommitAllowed(w, d) && !w.RecordNext?
    ensures var next := ApplyCommit(w, d);
            At7(c, next) && next.dirs == d.dirs && Quiesced(next) == Quiesced(d).(tmps := next.tmps)
  {
    hide ClassOf, IndexOf;
    PhaseClass(c, d);
    assert w.Quiesce? || w.DropShm? || w.CommitTmp?;
    assert Quiesced(ApplyCommit(w, d)).sidecars == Quiesced(d).sidecars;
  }

  lemma FinishAt8(c: Ctx, d: Disk, w: CommitWrite)
    requires Sound(c) && At8(c, d) && CanFinish(c, d) && CommitAllowed(w, d)
    ensures CanFinish(c, ApplyCommit(w, d))
  {
    FinishFrom8(c, d);
    PhaseClass(c, d);
    SameArtifacts(c, d, ApplyCommit(w, d));
    if w.InstallCandidate? {
      InstallIs9(c, d);
    } else {
      RoomStays(c, d, w);
      FinishFrom8(c, ApplyCommit(w, d));
    }
  }

  /** What a candidate needs to verify is in the artifacts alone. */
  lemma SameArtifacts(c: Ctx, d: Disk, next: Disk)
    requires next.dirs == d.dirs
    ensures Good(c, next) <==> Good(c, d)
  {
    hide DataPlane.Installed;
    assert IndexOf(next, c.p) == IndexOf(d, c.p);
  }

  lemma InstallIs9(c: Ctx, d: Disk)
    requires Sound(c) && At8(c, d) && CommitAllowed(InstallCandidate, d)
    ensures At9(c, ApplyCommit(InstallCandidate, d))
  {
    PhaseClass(c, d);
  }

  lemma RoomStays(c: Ctx, d: Disk, w: CommitWrite)
    requires Sound(c) && At8(c, d) && RoomToArchive(ReadyToArchive(d)) && CommitAllowed(w, d) && !w.InstallCandidate?
    ensures At8(c, ApplyCommit(w, d)) && RoomToArchive(ReadyToArchive(ApplyCommit(w, d)))
  {
    hide ClassOf, Verifies, IndexOf;
    PhaseClass(c, d);
    assert w.Checkpoint? || w.ArchiveSidecar? || w.ArchiveDb?;
  }

  lemma FinishAt9(c: Ctx, d: Disk, w: CommitWrite)
    requires Sound(c) && At9(c, d) && CanFinish(c, d) && CommitAllowed(w, d)
    ensures CanFinish(c, ApplyCommit(w, d))
  {
    hide DataPlane.Installed, Reconciled;
    PhaseClass(c, d);
    SameArtifacts(c, d, ApplyCommit(w, d));
    WriteAt9(c, d, Commit(w));
  }

  lemma FinishAt10(c: Ctx, d: Disk, w: CommitWrite)
    requires Sound(c) && At10(c, d) && CanFinish(c, d) && CommitAllowed(w, d)
    ensures CanFinish(c, ApplyCommit(w, d))
  {
    hide DataPlane.Installed, Reconciled;
    PhaseClass(c, d);
    SameArtifacts(c, d, ApplyCommit(w, d));
    WriteAt10(c, d, Commit(w));
  }

  lemma FinishStep(c: Ctx, d: Disk, w: CommitWrite)
    requires Sound(c) && CanFinish(c, d) && CommitAllowed(w, d)
    ensures CanFinish(c, ApplyCommit(w, d)) || At3(c, ApplyCommit(w, d))
  {
    if At7(c, d) {
      FinishAt7(c, d, w);
    } else if At8(c, d) {
      FinishAt8(c, d, w);
    } else if At9(c, d) {
      FinishAt9(c, d, w);
    } else if At10(c, d) {
      FinishAt10(c, d, w);
    } else {
      WriteAt11(c, d, Commit(w));
    }
  }

  /** A restore that can be finished still can be after any run of commits killed and restarted
      any number of times, anywhere: every state left is one from which a single uninterrupted
      commit ends the restore, or its end. */
  lemma {:induction false} KilledCommitsCanFinish(c: Ctx, d: Disk, ws: seq<Write>)
    requires Sound(c) && CanFinish(c, d) && Run(d, ws) && MidRun(d, ws) && forall w | w in ws :: !w.Abort?
    ensures CanFinish(c, After(d, ws)) || At3(c, After(d, ws))
    decreases |ws|
  {
    if ws != [] {
      hide CanFinish, Apply, Allowed, Follows;
      MidRunTail(d, ws);
      assert InRestore(c, d) by { FinishIsInRestore(c, d); }
      WriteInRestore(c, d, ws[0]);
      CommitWriteFinishes(c, d, ws[0]);
      var next := Apply(ws[0], d);
      if CanFinish(c, next) {
        assert forall w | w in ws[1..] :: w in ws;
        KilledCommitsCanFinish(c, next, ws[1..]);
      } else {
        EndIsTheEnd(c, next, ws[1..]);
      }
    }
  }

  lemma FinishIsInRestore(c: Ctx, d: Disk)
    requires CanFinish(c, d)
    ensures InRestore(c, d)
  {
  }

  lemma CommitWriteFinishes(c: Ctx, d: Disk, w: Write)
    requires Sound(c) && CanFinish(c, d) && Allowed(w, d) && w.Commit?
    ensures CanFinish(c, Apply(w, d)) || At3(c, Apply(w, d))
  {
    FinishStep(c, d, w.commit);
  }

  lemma FinishOrEnded(c: Ctx, d: Disk, w: CommitWrite)
    requires Sound(c) && CommitAllowed(w, d)
    ensures CanFinish(c, d) || At3(c, d) ==> CanFinish(c, ApplyCommit(w, d)) || At3(c, ApplyCommit(w, d))
  {
    if CanFinish(c, d) {
      FinishStep(c, d, w);
    } else if At3(c, d) {
      PhaseClass(c, d);
    }
  }

  /** A run up to its first K3 does not go on from the end. */
  lemma EndIsTheEnd(c: Ctx, d: Disk, ws: seq<Write>)
    requires Sound(c) && At3(c, d) && MidRun(d, ws)
    ensures ws == []
  {
    PhaseClass(c, d);
    if ws != [] {
      MidRunTail(d, ws);
    }
  }

  /** The two planes have the same profiles, heads in the same places, and one trusted
      transition per tenant over exactly the leaves between them. */
  ghost predicate Stages(live: Plane, bk: Plane, x: Record, trusted: set<Id>) {
    && live.profiles.Keys == bk.profiles.Keys
    && DataPlane.Readable(live, x.instance) && DataPlane.Readable(bk, x.instance)
    && var lh, bh := DataPlane.HeadsOf(live, x.instance), DataPlane.HeadsOf(bk, x.instance);
    && DataPlane.Coverable(lh, bh)
    && exists cover :: DataPlane.IsCover(lh, bh, cover) && DataPlane.Staged(live, x.instance, x.epoch, cover, trusted)
  }

  /** What prepare checks of the live and the backup plane. `trusted` and `intact` stand for
      the checks on signatures, custody, revocations, foreign keys and blobs. */
  ghost predicate Prepares(live: Plane, bk: Plane, x: Record, trusted: set<Id>, intact: bool) {
    && x.epoch < MAX_WIRE_INT
    && Stages(live, bk, x, trusted)
    && DataPlane.LedgerReadable(live)
    && DataPlane.OwnRows(DataPlane.Moved(live, bk), x.instance)
    && intact
  }

  method StageCover(live: Plane, bk: Plane, x: Record, trusted: set<Id>) returns (cover: Option<DataPlane.Cover>)
    ensures cover.Some? <==> Stages(live, bk, x, trusted)
    ensures cover.Some? ==> DataPlane.Accepted(live, bk, x.instance, x.epoch, cover.value, trusted)
  {
    var liveHeads := DataPlane.ReadHeads(live, x.instance);
    var backupHeads := DataPlane.ReadHeads(bk, x.instance);
    if liveHeads.None? || backupHeads.None? {
      return None;
    }
    cover := DataPlane.Coverage(liveHeads.value, backupHeads.value);
    if cover.None? {
      return None;
    }
    StagesByCover(live, bk, x, trusted, cover.value);
    if !DataPlane.Staged(live, x.instance, x.epoch, cover.value, trusted) {
      return None;
    }
  }

  lemma StagesByCover(live: Plane, bk: Plane, x: Record, trusted: set<Id>, cover: DataPlane.Cover)
    requires DataPlane.Readable(live, x.instance) && DataPlane.Readable(bk, x.instance)
    requires DataPlane.Coverable(DataPlane.HeadsOf(live, x.instance), DataPlane.HeadsOf(bk, x.instance))
    requires DataPlane.IsCover(DataPlane.HeadsOf(live, x.instance), DataPlane.HeadsOf(bk, x.instance), cover)
    ensures Stages(live, bk, x, trusted) <==> DataPlane.Staged(live, x.instance, x.epoch, cover, trusted)
    ensures live.profiles.Keys == bk.profiles.Keys
  {
    DataPlane.SameProfiles(live, bk, x.instance);
    var lh, bh := DataPlane.HeadsOf(live, x.instance), DataPlane.HeadsOf(bk, x.instance);
    forall other | DataPlane.IsCover(lh, bh, other) ensures other == cover {
      DataPlane.CoverIsUnique(lh, bh, other, cover);
    }
  }

  /** Step 2a without the files: heads, coverage, staged transitions, merge. The staged
      epoch must fit SQLite's integer. */
  method BuildCandidate(live: Plane, bk: Plane, x: Record, trusted: set<Id>, intact: bool)
    returns (r: Option<(DataPlane.Cover, Plane)>)
    ensures r.Some? <==> Prepares(live, bk, x, trusted, intact)
    ensures r.Some? ==> DataPlane.Accepted(live, bk, x.instance, x.epoch, r.value.0, trusted)
    ensures r.Some? ==> r.value.1 == DataPlane.Merged(live, bk, x.epoch + 1)
  {
    var cover := StageCover(live, bk, x, trusted);
    if cover.None? || x.epoch >= MAX_WIRE_INT {
      return None;
    }
    var merged := DataPlane.Merge(live, bk, x.instance, x.epoch + 1, intact);
    if merged.None? {
      return None;
    }
    return Some((cover.value, merged.value));
  }

  /** A manifest for the next epoch of the record on disk. */
  predicate ManifestFor(p: Manifest, d: Disk) {
    && d.record.Some? && p.state == Prepared && p.instance == d.record.value.instance
    && p.previousEpoch == d.record.value.epoch && p.newEpoch == p.previousEpoch + 1
    && p.previousRecord == OfRecord(d.record.value)
  }

  /** The objects of a restore as prepare makes them from the record, the live database
      after the audit, and the candidate plane. */
  function CtxOf(x: Record, live: Db, plane: Plane, entries: map<Id, IndexEntry>, txn: Id, backupDb: Sha, at: nat): Ctx {
    var candidate := live.(plane := plane);
    var index := Index(x.instance, x.epoch, x.epoch + 1, txn, backupDb, OfDb(live), entries);
    var p := Manifest(Prepared, x.instance, x.epoch, x.epoch + 1, txn, OfDb(candidate), OfIndex(index), OfRecord(x), at);
    Ctx(x, p, live, candidate, index)
  }

  predicate IdsAgree(c: Ctx) {
    && c.index.instance == c.p.instance && c.index.previousEpoch == c.p.previousEpoch
    && c.index.newEpoch == c.p.newEpoch && c.index.txn == c.p.txn
  }

  predicate LiveAt(x: Record, live: Db, txn: Id) {
    && live.mirror == Some(Mirror(x.instance, x.epoch, OfRecord(x)))
    && |live.log| > 0 && live.log[|live.log| - 1] == ServerRow(RestorePrepare, txn)
  }

  lemma CtxIsSound(x: Record, live: Db, plane: Plane, entries: map<Id, IndexEntry>, txn: Id, backupDb: Sha, at: nat)
    requires LiveAt(x, live, txn)
    ensures var c := CtxOf(x, live, plane, entries, txn, backupDb, at);
            && Sound(c) && Named(c.p) && IdsAgree(c) && c.index.entries == entries
            && c.p.txn == txn && c.e == x && c.live == live && c.candidate == live.(plane := plane)
  {
  }

  lemma K3Facts(d: Disk)
    requires ClassOf(d) == K3
    ensures d.record.Some? && d.prep == NoManifest && d.db.Some? && d.db.value.Whole?
    ensures d.db.value.db.mirror == Some(Mirror(d.record.value.instance, d.record.value.epoch, OfRecord(d.record.value)))
  {
  }

  /** What a successful prepare leaves: phase K7 of a sound restore to the backup's heads, with
      the transitions of `cover` in the index and the artifacts. */
  ghost predicate IsPrepared(c: Ctx, x: Record, live: Db, bk: Plane, cover: DataPlane.Cover, txn: Id, d: Disk) {
    && Sound(c) && Named(c.p) && At7(c, d)
    && c.e == x && c.live == live && c.p.txn == txn
    && live.plane.profiles.Keys == bk.profiles.Keys && DataPlane.Readable(bk, x.instance)
    && c.candidate == live.(plane := DataPlane.Merged(live.plane, bk, x.epoch + 1))
    && IndexOf(d, c.p) == Some(c.index)
    && c.index.entries == DataPlane.EntriesOf(live.plane, x.instance, x.epoch, cover)
    && DataPlane.FilesOf(live.plane, x.instance, x.epoch) <= d.dirs[txn].files
  }

  /** The restore's promise: once it ends at E + 1, the heads at the DB path are the backup's. */
  lemma RestoredHeads(c: Ctx, x: Record, live: Db, bk: Plane, cover: DataPlane.Cover, txn: Id, prepared: Disk, d: Disk)
    requires IsPrepared(c, x, live, bk, cover, txn, prepared) && At3(c, d)
    ensures DataPlane.Readable(d.db.value.db.plane, x.instance)
    ensures DataPlane.HeadsOf(d.db.value.db.plane, x.instance) == DataPlane.HeadsOf(bk, x.instance)
  {
    DataPlane.CandidateHeads(live.plane, bk, x.instance, x.epoch + 1, d.db.value.db.plane);
  }

  /** On the files a successful prepare leaves, the candidate verifies exactly when the count
      columns agree; then a commit can finish exactly when the archive names are free. */
  lemma PreparedCanCommit(c: Ctx, x: Record, live: Db, bk: Plane, cover: DataPlane.Cover, trusted: set<Id>, txn: Id, d: Disk)
    requires IsPrepared(c, x, live, bk, cover, txn, d)
    requires DataPlane.Accepted(live.plane, bk, x.instance, x.epoch, cover, trusted)
    ensures Good(c, d) <==> DataPlane.CountsAgree(live.plane, x.instance, x.epoch)
    ensures CanFinish(c, d) <==> DataPlane.CountsAgree(live.plane, x.instance, x.epoch) && RoomToArchive(Quiesced(d))
  {
    DataPlane.VerifyAgreesWithPrepare(live.plane, bk, x.instance, x.epoch, cover, trusted,
                                      c.candidate.plane, d.dirs[txn].files);
    PhaseClass(c, d);
  }

  /** From a prepared restore whose count columns agree and whose archive names are free, every
      state that any number of killed commits can leave ends, by one uninterrupted commit, at E + 1. */
  lemma PreparedSurvivesKills(c: Ctx, x: Record, live: Db, bk: Plane, cover: DataPlane.Cover, trusted: set<Id>, txn: Id,
                              d: Disk, ws: seq<Write>)
    requires IsPrepared(c, x, live, bk, cover, txn, d)
    requires DataPlane.Accepted(live.plane, bk, x.instance, x.epoch, cover, trusted)
    requires DataPlane.CountsAgree(live.plane, x.instance, x.epoch) && RoomToArchive(Quiesced(d))
    requires Run(d, ws) && MidRun(d, ws) && forall w | w in ws :: !w.Abort?
    ensures CanFinish(c, After(d, ws)) || At3(c, After(d, ws))
  {
    hide CanFinish, DataPlane.Accepted, DataPlane.CountsAgree, RoomToArchive;
    PreparedCanCommit(c, x, live, bk, cover, trusted, txn, d);
    KilledCommitsCanFinish(c, d, ws);
  }

  /** A trace grew by writes of one command only. */
  ghost predicate CommitWrote(before: seq<Write>, after: seq<Write>) {
    before <= after && forall i | |before| <= i < |after| :: after[i].Commit?
  }
  ghost predicate AbortWrote(before: seq<Write>, after: seq<Write>) {
    before <= after && forall i | |before| <= i < |after| :: after[i].Abort?
  }
  ghost predicate OrphanWrote(before: seq<Write>, after: seq<Write>) {
    before <= after && forall i | |before| <= i < |after| :: after[i].Orphans?
  }
  ghost predicate PrepareWrote(before: seq<Write>, after: seq<Write>) {
    before <= after && forall i | |before| <= i < |after| :: after[i].Prepare?
  }

  class Site {
    var disk: Disk
    ghost const start: Disk
    /** The durable writes so far, and every state of the files they left: a kill leaves one of these. */
    ghost var trace: seq<Write>
    ghost var states: seq<Disk>

    ghost predicate Valid()
      reads this
    {
      && |states| == |trace| + 1 && states[0] == start && states[|trace|] == disk
      && forall i {:trigger trace[i], states[i]} | 0 <= i < |trace| ::
           Allowed(trace[i], states[i]) && states[i + 1] == Apply(trace[i], states[i])
    }

    constructor (disk: Disk)
      ensures Valid() && this.disk == disk && start == disk && trace == []
    {
      this.disk := disk;
      start := disk;
      trace := [];
      states := [disk];
    }

    /** One durable write, where the code allows it. */
    method Do(w: Write)
      requires Valid() && Allowed(w, disk)
      modifies this
      ensures Valid() && disk == Apply(w, old(disk)) && trace == old(trace) + [w] && states == old(states) + [disk]
    {
      disk := Apply(w, disk);
      trace := trace + [w];
      states := states + [disk];
    }

    /** Every recorded state is reached by a run of allowed writes from the first one, so what
        is proved of all runs holds of every state a kill of these methods can leave. */
    lemma {:induction false} KillsAreRuns(n: nat)
      requires Valid() && n <= |trace|
      ensures Run(start, trace[..n]) && After(start, trace[..n]) == states[n]
    {
      hide Apply, Allowed;
      if n > 0 {
        KillsAreRuns(n - 1);
        RunAppend(start, trace[..n - 1], trace[n - 1]);
        assert trace[..n] == trace[..n - 1] + [trace[n - 1]];
      }
    }

    /** A `restore commit` killed after any of its writes leaves a phase of the same restore,
        and never an earlier class. */
    lemma {:induction false} CommitKilled(c: Ctx, first: nat, n: nat)
      requires Valid() && Sound(c) && first <= n <= |trace| && InRestore(c, states[first])
      requires forall i | first <= i < n :: trace[i].Commit?
      ensures InRestore(c, states[n]) && Order(ClassOf(states[first])) <= Order(ClassOf(states[n])) <= 5
      ensures CanFinish(c, states[first]) ==> CanFinish(c, states[n]) || At3(c, states[n])
    {
      hide CanFinish, At3, Order, Classify;
      if n == first {
        PhaseOrder(c, states[n]);
      } else {
        CommitKilled(c, first, n - 1);
        CommitStep(c, states[n - 1], trace[n - 1].commit);
        FinishOrEnded(c, states[n - 1], trace[n - 1].commit);
      }
    }

    // ------------------------------------------------------ restore commit ----

    /** Step 4.ii for one sidecar; refuses an archive that exists and differs. */
    method ArchiveOne(s: Sidecar) returns (ok: bool)
      requires Valid() && ClassOf(disk) == K8
      modifies this
      ensures Valid() && CommitWrote(old(trace), trace)
      ensures ok <==> SideFree(old(disk), s)
      ensures ok ==> ClassOf(disk) == K8 && disk == old(disk).(sidecars := old(disk).sidecars - {s}, archives := disk.archives)
      ensures ok ==> forall slot | slot != (old(disk).prep.manifest.txn, Side(s)) ::
                (slot in disk.archives <==> slot in old(disk).archives)
                && (slot in disk.archives ==> disk.archives[slot] == old(disk).archives[slot])
    {
      ok := SideFree(disk, s);
      if ok && s in disk.sidecars {
        Do(Commit(ArchiveSidecar(s)));
      }
    }

    /** Step 4.ii; the archive of the database itself is not touched. */
    method ArchiveSidecars() returns (ok: bool)
      requires Valid() && ClassOf(disk) == K8
      modifies this
      ensures Valid() && CommitWrote(old(trace), trace)
      ensures ok <==> SideFree(old(disk), Wal) && SideFree(old(disk), Shm)
      ensures ok ==> ClassOf(disk) == K8 && disk == old(disk).(sidecars := map[], archives := disk.archives)
      ensures ok ==> MainSlots(disk.archives) == MainSlots(old(disk).archives)
    {
      EightIsReadable(disk);
      hide Valid, ClassOf, MainSlots;
      ghost var was := disk;
      ok := ArchiveOne(Wal);
      if ok {
        assert SideFree(disk, Shm) == SideFree(old(disk), Shm);
        ok := ArchiveOne(Shm);
      }
      if ok {
        assert disk.sidecars == map[] by {
          assert forall s :: s in disk.sidecars ==> s == Wal || s == Shm;
        }
        SameMainSlots(was.archives, disk.archives);
      }
    }

    /** Step 4.iii. */
    method ArchiveLive() returns (ok: bool)
      requires Valid() && ClassOf(disk) == K8 && disk.sidecars == map[] && disk.db.Some?
      modifies this
      ensures Valid() && CommitWrote(old(trace), trace)
      ensures disk.db == None <==> ok
      ensures ok <==> SlotFree(old(disk), (old(disk).prep.manifest.txn, Main), DbContent(old(disk).db.value.db))
      ensures ok ==> disk == Apply(Commit(ArchiveDb), old(disk)) && ClassOf(disk) == K8
    {
      ok := SlotFree(disk, (disk.prep.manifest.txn, Main), DbContent(disk.db.value.db));
      if ok {
        Do(Commit(ArchiveDb));
      }
    }

    /** Step 4.i: checkpoint what is at the DB path, if anything is. */
    method CheckpointLive()
      requires Valid() && ClassOf(disk) == K8
      modifies this
      ensures Valid() && CommitWrote(old(trace), trace) && ClassOf(disk) == K8
      ensures disk == if old(disk).db.Some? then old(disk).(sidecars := Checkpointed(old(disk).sidecars)) else old(disk)
    {
      if disk.db.Some? {
        Do(Commit(Checkpoint));
      }
    }

    method ClearPath() returns (ok: bool)
      requires Valid() && ClassOf(disk) == K8
      modifies this
      ensures Valid() && CommitWrote(old(trace), trace)
      ensures ok <==> RoomToArchive(ReadyToArchive(old(disk)))
      ensures ok ==> ClassOf(disk) == K8 && disk == old(disk).(db := None, sidecars := map[], archives := disk.archives)
      ensures ok ==> LiveArchived(old(disk), disk)
    {
      EightIsReadable(disk);
      hide Valid, ClassOf, LiveArchived, SlotFree, MainSlots;
      ghost var was := disk;
      CheckpointLive();
      ok := ArchiveSidecars();
      if ok {
        ArchivesOnlyLive(was, disk);
      }
      if ok && disk.db.Some? {
        ok := ArchiveLive();
      }
    }

    /** Step 4: clear the DB path into the archive, then install the candidate there. */
    method Install() returns (ok: bool)
      requires Valid() && ClassOf(disk) == K8
      modifies this
      ensures Valid() && CommitWrote(old(trace), trace)
      ensures ok <==> RoomToArchive(ReadyToArchive(old(disk)))
      ensures ok ==> InstalledFrom(old(disk), disk)
    {
      ok := ClearPath();
      if ok {
        Do(Commit(InstallCandidate));
      }
    }

    /** K9: let SQLite roll an interrupted transaction back, then require the exact candidate. */
    method RolledBackCandidate() returns (ok: bool)
      requires Valid() && disk.prep.Parsed? && disk.db.Some?
      requires disk.db.value.Torn? ==> ClassOf(disk) == K9
      modifies this
      ensures Valid() && CommitWrote(old(trace), trace)
      ensures disk == old(disk).(db := Some(Whole(Logical(old(disk).db.value))))
      ensures ok <==> OfDb(Logical(old(disk).db.value)) == old(disk).prep.manifest.candidateDb
    {
      if disk.db.value.Torn? {
        Do(Commit(TxRollBack));
      }
      ok := OfDb(disk.db.value.db) == disk.prep.manifest.candidateDb;
    }

    /** The installed database passes `verify_installed` against the artifacts. */
    method Verify() returns (ok: bool)
      requires disk.prep.Parsed? && disk.db.Some? && disk.db.value.Whole?
      ensures ok <==> Verifies(disk, disk.prep.manifest, disk.db.value.db)
    {
      var p := disk.prep.manifest;
      var index := IndexOf(disk, p);
      if index.None? {
        return false;
      }
      var audit := DataPlane.VerifyInstalled(disk.db.value.db.plane, p.instance, p.previousEpoch,
                                             index.value.entries, disk.dirs[p.txn].files);
      ok := audit.Some?;
    }

    /** The transaction itself; a kill before the commit may leave a hot journal. */
    method Transact(journal: bool)
      requires Valid() && BeforeStep5(disk) && Verifies(disk, disk.prep.manifest, disk.db.value.db)
      modifies this
      ensures Valid() && CommitWrote(old(trace), trace)
      ensures disk == Step5Done(old(disk))
    {
      hide Valid;
      Step5Class(disk);
      if journal {
        Do(Commit(TxBegin));
        Step5TornClass(old(disk), disk);
      }
      Do(Commit(TxCommit));
    }

    /** Step 5: verify, one transaction, read back. */
    method ReconcileMirror(journal: bool) returns (ok: bool)
      requires Valid() && BeforeStep5(disk)
      modifies this
      ensures Valid() && CommitWrote(old(trace), trace)
      ensures ok <==> Verifies(old(disk), old(disk).prep.manifest, old(disk).db.value.db)
      ensures ok ==> disk == Step5Done(old(disk)) && ClassOf(disk) == K10
      ensures ok ==> Verifies(disk, disk.prep.manifest, disk.db.value.db)
    {
      ok := Verify();
      if ok {
        Transact(journal);
        Step5Lands(old(disk), disk);
        ok := Verify();
      }
    }

    method WriteManifestTmp()
      requires Valid() && ClassOf(disk) == K10
      modifies this
      ensures Valid() && CommitWrote(old(trace), trace) && ClassOf(disk) == K10
      ensures disk == old(disk).(tmps := old(disk).tmps + {ManifestTmp})
    {
      Do(Commit(CommitTmp(ManifestTmp)));
    }

    method ReplaceManifest()
      requires Valid() && ClassOf(disk) == K10 && Verifies(disk, disk.prep.manifest, disk.db.value.db)
      modifies this
      ensures Valid() && CommitWrote(old(trace), trace) && ClassOf(disk) == K11
      ensures disk == old(disk).(prep := Parsed(old(disk).prep.manifest.(state := Terminal)), tmps := disk.tmps)
    {
      hide DataPlane.Installed;
      Do(Commit(ManifestTerminal));
      TerminalIs11(old(disk), disk.tmps);
    }

    /** Step 6. */
    method WriteTerminal()
      requires Valid() && ClassOf(disk) == K10 && Verifies(disk, disk.prep.manifest, disk.db.value.db)
      modifies this
      ensures Valid() && CommitWrote(old(trace), trace) && ClassOf(disk) == K11
      ensures disk == old(disk).(prep := Parsed(old(disk).prep.manifest.(state := Terminal)), tmps := disk.tmps)
    {
      WriteManifestTmp();
      ReplaceManifest();
    }

    method RemoveManifest()
      requires Valid() && ClassOf(disk) in {K5b, K11}
      requires disk.record.value.txn in disk.dirs ==> disk.dirs[disk.record.value.txn].files == {}
      modifies this
      ensures Valid() && CommitWrote(old(trace), trace) && ClassOf(disk) == K3
      ensures disk == old(disk).(prep := NoManifest)
    {
      Do(Commit(RetireManifest));
    }

    method RemoveDir(txn: Id)
      requires Valid() && ClassOf(disk) == K3 && disk.record.value.txn == txn && txn in disk.dirs && disk.dirs[txn].files == {}
      modifies this
      ensures Valid() && CommitWrote(old(trace), trace) && ClassOf(disk) == K3
      ensures disk == old(disk).(dirs := old(disk).dirs - {txn})
    {
      Do(Commit(RetireDir(txn)));
    }

    /** Step 7: the artifacts one by one, the manifest, the directory. */
    method Retire()
      requires Valid() && ClassOf(disk) in {K5b, K11}
      modifies this
      ensures Valid() && CommitWrote(old(trace), trace) && ClassOf(disk) == K3
      ensures disk == old(disk).(prep := NoManifest, dirs := old(disk).dirs - {old(disk).record.value.txn})
    {
      hide Valid;
      var txn := disk.record.value.txn;
      if txn in disk.dirs {
        RemoveArtifacts(txn);
      }
      RemoveManifest();
      if txn in disk.dirs {
        RemoveDir(txn);
      }
    }

    method RemoveArtifact(txn: Id, a: Artifact)
      requires Valid() && ClassOf(disk) in {K5b, K11} && disk.record.value.txn == txn && txn in disk.dirs
      modifies this
      ensures Valid() && CommitWrote(old(trace), trace) && ClassOf(disk) == ClassOf(old(disk))
      ensures disk == DropArtifact(old(disk), txn, a)
    {
      Do(Commit(RetireArtifact(a)));
    }

    method RemoveArtifacts(txn: Id)
      requires Valid() && ClassOf(disk) in {K5b, K11} && disk.record.value.txn == txn && txn in disk.dirs
      modifies this
      ensures Valid() && CommitWrote(old(trace), trace) && ClassOf(disk) == ClassOf(old(disk))
      ensures disk == old(disk).(dirs := old(disk).dirs[txn := old(disk).dirs[txn].(files := {})])
    {
      hide Valid;
      while disk.dirs[txn].files != {}
        invariant Valid() && CommitWrote(old(trace), trace) && ClassOf(disk) == ClassOf(old(disk))
        invariant disk.record == old(disk).record && txn in disk.dirs
        invariant disk == old(disk).(dirs := old(disk).dirs[txn := old(disk).dirs[txn].(files := disk.dirs[txn].files)])
        decreases disk.dirs[txn].files
      {
        var a :| a in disk.dirs[txn].files;
        RemoveArtifact(txn, a);
      }
    }

    method QuiesceLive()
      requires Valid() && ClassOf(disk) == K7
      modifies this
      ensures Valid() && CommitWrote(old(trace), trace) && ClassOf(disk) == K7
      ensures disk == Quiesced(old(disk))
    {
      Do(Commit(Quiesce));
      if Shm in disk.sidecars {
        Do(Commit(DropShm));
      }
      assert disk.sidecars == Quiesced(old(disk)).sidecars;
    }

    method WriteRecordTmp()
      requires Valid() && ClassOf(disk) == K7
      modifies this
      ensures Valid() && CommitWrote(old(trace), trace) && ClassOf(disk) == K7
      ensures disk == old(disk).(tmps := old(disk).tmps + {RecordTmp})
    {
      Do(Commit(CommitTmp(RecordTmp)));
    }

    method ReplaceRecord(at: nat)
      requires Valid() && ClassOf(disk) == K7 && Named(disk.prep.manifest) && CandidateIntact(disk)
      requires IndexOf(disk, disk.prep.manifest).Some? && LiveUnchanged(disk, IndexOf(disk, disk.prep.manifest).value)
      requires Shm !in disk.sidecars
      modifies this
      ensures Valid() && CommitWrote(old(trace), trace) && ClassOf(disk) == K8
      ensures disk == old(disk).(record := Some(NextRecord(old(disk).prep.manifest, at)), tmps := disk.tmps)
    {
      Do(Commit(RecordNext(at)));
    }

    /** Step 3, the authority commit point: record E + 1, only for the exact candidate,
        artifacts and live database that were prepared. */
    method WriteRecord(at: nat) returns (ok: bool)
      requires Valid() && ClassOf(disk) == K7 && Named(disk.prep.manifest)
      modifies this
      ensures Valid() && CommitWrote(old(trace), trace)
      ensures ok <==> && CandidateIntact(old(disk)) && IndexOf(old(disk), old(disk).prep.manifest).Some?
                      && LiveUnchanged(Quiesced(old(disk)), IndexOf(old(disk), old(disk).prep.manifest).value)
      ensures !ok ==> disk.record == old(disk).record && ClassOf(disk) == K7
      ensures ok ==> ClassOf(disk) == K8
      ensures ok ==> disk == Quiesced(old(disk)).(record := Some(NextRecord(old(disk).prep.manifest, at)), tmps := disk.tmps)
    {
      if !CandidateIntact(disk) {
        return false;
      }
      var index := IndexOf(disk, disk.prep.manifest);
      if index.None? {
        return false;
      }
      QuiesceLive();
      if !LiveUnchanged(disk, index.value) {
        return false;
      }
      WriteRecordTmp();
      ReplaceRecord(at);
      ok := true;
    }

    /** Steps 6 and 7 after a verified step 5. */
    method Close()
      requires Valid() && ClassOf(disk) == K10 && Verifies(disk, disk.prep.manifest, disk.db.value.db)
      modifies this
      ensures Valid() && CommitWrote(old(trace), trace) && ClassOf(disk) == K3
      ensures disk == Closed(old(disk)).(tmps := disk.tmps)
    {
      WriteTerminal();
      Retire();
    }

    /** Steps 5 to 7 on an installed candidate. */
    method FromInstalled(journal: bool) returns (ok: bool)
      requires Valid() && CandidateInstalled(disk)
      modifies this
      ensures Valid() && CommitWrote(old(trace), trace)
      ensures ok <==> PassesStep5(old(disk))
      ensures ok ==> ClassOf(disk) == K3 && disk == Closed(Step5Done(RolledBack(old(disk)))).(tmps := disk.tmps)
    {
      hide Valid;
      ok := RolledBackCandidate();
      if ok {
        ok := ReconcileMirror(journal);
      }
      if ok {
        Close();
      }
    }

    /** Steps 4 to 7. */
    method FromRecord(journal: bool) returns (ok: bool)
      requires Valid() && ClassOf(disk) == K8 && Named(disk.prep.manifest)
      modifies this
      ensures Valid() && CommitWrote(old(trace), trace)
      ensures ok <==> RoomToArchive(ReadyToArchive(old(disk))) && PassesStep5(AfterInstall(old(disk)))
      ensures ok ==> && ClassOf(disk) == K3 && LiveArchived(old(disk), disk)
                     && disk == Closed(Step5Done(AfterInstall(old(disk)))).(tmps := disk.tmps, archives := disk.archives)
    {
      ok := Install();
      if ok {
        InstalledReady(old(disk), disk);
        ok := FromInstalled(journal);
      }
    }

    method CommitFrom7(at: nat, journal: bool, ghost c: Ctx) returns (ok: bool)
      requires Valid() && ClassOf(disk) == K7 && Named(disk.prep.manifest)
      modifies this
      ensures Valid() && CommitWrote(old(trace), trace)
      ensures ok ==> ClassOf(disk) == K3
      ensures Sound(c) && InRestore(c, old(disk)) ==> (ok <==> CanFinish(c, old(disk)))
      ensures Sound(c) && InRestore(c, old(disk)) && ok ==> At3(c, disk) && c.p.txn !in disk.dirs
    {
      ghost var mine := Sound(c) && InRestore(c, disk);
      if mine {
        PhaseClass(c, disk);
        See7(c, disk);
      }
      ok := WriteRecord(at);
      if ok {
        ghost var mid := disk;
        if mine {
          Record7(c, old(disk), mid, at);
          See8(c, mid);
        }
        ok := FromRecord(journal);
        if mine && ok {
          End8(c, mid, disk);
        }
      }
    }

    method CommitFrom8(journal: bool, ghost c: Ctx) returns (ok: bool)
      requires Valid() && ClassOf(disk) == K8 && Named(disk.prep.manifest)
      modifies this
      ensures Valid() && CommitWrote(old(trace), trace)
      ensures ok ==> ClassOf(disk) == K3
      ensures Sound(c) && InRestore(c, old(disk)) ==> (ok <==> CanFinish(c, old(disk)))
      ensures Sound(c) && InRestore(c, old(disk)) && ok ==> At3(c, disk) && c.p.txn !in disk.dirs
    {
      ghost var mine := Sound(c) && InRestore(c, disk);
      if mine {
        PhaseClass(c, disk);
        See8(c, disk);
      }
      ok := FromRecord(journal);
      if mine && ok {
        End8(c, old(disk), disk);
      }
    }

    method CommitFrom9(journal: bool, ghost c: Ctx) returns (ok: bool)
      requires Valid() && ClassOf(disk) == K9 && Named(disk.prep.manifest)
      modifies this
      ensures Valid() && CommitWrote(old(trace), trace)
      ensures ok ==> ClassOf(disk) == K3
      ensures Sound(c) && InRestore(c, old(disk)) ==> (ok <==> CanFinish(c, old(disk)))
      ensures Sound(c) && InRestore(c, old(disk)) && ok ==> At3(c, disk) && c.p.txn !in disk.dirs
    {
      ghost var mine := Sound(c) && InRestore(c, disk);
      if mine {
        PhaseClass(c, disk);
        See9(c, disk);
      }
      ok := FromInstalled(journal);
      if mine && ok {
        End9(c, old(disk), disk);
      }
    }

    method CommitFrom10(ghost c: Ctx) returns (ok: bool)
      requires Valid() && ClassOf(disk) == K10
      modifies this
      ensures Valid() && CommitWrote(old(trace), trace)
      ensures ok ==> ClassOf(disk) == K3
      ensures Sound(c) && InRestore(c, old(disk)) ==> (ok <==> CanFinish(c, old(disk)))
      ensures Sound(c) && InRestore(c, old(disk)) && ok ==> At3(c, disk) && c.p.txn !in disk.dirs
    {
      if Sound(c) && InRestore(c, disk) {
        PhaseClass(c, disk);
        See10(c, disk);
      }
      ok := Verify();
      if ok {
        Close();
      }
    }

    method CommitFrom11(ghost c: Ctx)
      requires Valid() && ClassOf(disk) == K11
      modifies this
      ensures Valid() && CommitWrote(old(trace), trace) && ClassOf(disk) == K3
      ensures Sound(c) && InRestore(c, old(disk)) ==> CanFinish(c, old(disk)) && At3(c, disk) && c.p.txn !in disk.dirs
    {
      if Sound(c) && InRestore(c, disk) {
        PhaseClass(c, disk);
      }
      Retire();
    }

    /** `restore commit`: the remaining steps from the current class. From any state a killed
        run can have left, it ends in K3 at E + 1 exactly when `CanFinish` says so. */
    method CommitRestore(at: nat, journal: bool, ghost c: Ctx) returns (ok: bool)
      requires Valid() && (disk.prep.Parsed? ==> Named(disk.prep.manifest))
      modifies this
      ensures Valid() && CommitWrote(old(trace), trace)
      ensures ok ==> ClassOf(disk) == K3
      ensures ClassOf(old(disk)) !in {K7, K8, K9, K10, K11} ==> !ok && disk == old(disk)
      ensures Sound(c) && InRestore(c, old(disk)) ==> (ok <==> CanFinish(c, old(disk)))
      ensures Sound(c) && InRestore(c, old(disk)) && ok ==> At3(c, disk) && c.p.txn !in disk.dirs
    {
      hide Valid, At7, At8, At9, At10, At11, At3, Aborting, AbortDone, Sound;
      match ClassOf(disk) {
        case K7 => ok := CommitFrom7(at, journal, c);
        case K8 => ok := CommitFrom8(journal, c);
        case K9 => ok := CommitFrom9(journal, c);
        case K10 => ok := CommitFrom10(c);
        case K11 =>
          CommitFrom11(c);
          ok := true;
        case _ =>
          ok := false;
          if Sound(c) {
            PhaseClass(c, disk);
          }
      }
    }

    /** `restore commit --retire`: only for K5b, whose manifest does not parse. */
    method CommitRetire() returns (ok: bool)
      requires Valid()
      modifies this
      ensures Valid() && CommitWrote(old(trace), trace)
      ensures ok <==> ClassOf(old(disk)) == K5b
      ensures !ok ==> disk == old(disk)
      ensures ok ==> ClassOf(disk) == K3 && disk.record == old(disk).record && ReadMirror(disk.db) == ReadMirror(old(disk).db)
    {
      ok := ClassOf(disk) == K5b;
      if ok {
        Do(Commit(RetireAudit));
        Retire();
      }
    }

    // ------------------------------------------------------- restore abort ----

    method AbortOne(w: AbortWrite)
      requires Valid() && ClassOf(disk) in {K5a, K7} && AbortAudited(disk)
      requires !w.AbortAudit? && !w.AbortManifest?
      modifies this
      ensures Valid() && AbortWrote(old(trace), trace)
      ensures ClassOf(disk) == ClassOf(old(disk)) && AbortAudited(disk) && disk == ApplyAbort(w, old(disk))
    {
      Do(Abort(w));
    }

    method AbortCandidates()
      requires Valid() && ClassOf(disk) in {K5a, K7} && AbortAudited(disk)
      modifies this
      ensures Valid() && AbortWrote(old(trace), trace)
      ensures ClassOf(disk) == ClassOf(old(disk)) && AbortAudited(disk)
      ensures disk == old(disk).(candidates := map[], candidateTmps := {})
    {
      while disk.candidates != map[]
        invariant Valid() && AbortWrote(old(trace), trace) && ClassOf(disk) == ClassOf(old(disk)) && AbortAudited(disk)
        invariant disk == old(disk).(candidates := disk.candidates)
        decreases disk.candidates.Keys
      {
        var txn :| txn in disk.candidates;
        AbortOne(AbortCandidate(txn));
      }
      while disk.candidateTmps != {}
        invariant Valid() && AbortWrote(old(trace), trace) && ClassOf(disk) == ClassOf(old(disk)) && AbortAudited(disk)
        invariant disk == old(disk).(candidates := map[], candidateTmps := disk.candidateTmps)
        decreases disk.candidateTmps
      {
        var txn :| txn in disk.candidateTmps;
        AbortOne(AbortCandidateTmp(txn));
      }
    }

    method AbortOneArtifact(txn: Id, a: Artifact)
      requires Valid() && ClassOf(disk) in {K5a, K7} && AbortAudited(disk) && txn in disk.dirs
      modifies this
      ensures Valid() && AbortWrote(old(trace), trace)
      ensures ClassOf(disk) == ClassOf(old(disk)) && AbortAudited(disk) && disk == DropArtifact(old(disk), txn, a)
    {
      AbortOne(AbortArtifact(txn, a));
    }

    /** `remove_dir_all`: the files, then the directory. */
    method AbortOneDir(txn: Id)
      requires Valid() && ClassOf(disk) in {K5a, K7} && AbortAudited(disk) && txn in disk.dirs
      modifies this
      ensures Valid() && AbortWrote(old(trace), trace)
      ensures ClassOf(disk) == ClassOf(old(disk)) && AbortAudited(disk)
      ensures disk == old(disk).(dirs := old(disk).dirs - {txn})
    {
      hide Valid;
      while disk.dirs[txn].files != {}
        invariant Valid() && AbortWrote(old(trace), trace) && ClassOf(disk) == ClassOf(old(disk)) && AbortAudited(disk)
        invariant txn in disk.dirs
        invariant disk == old(disk).(dirs := old(disk).dirs[txn := disk.dirs[txn]])
        decreases disk.dirs[txn].files
      {
        var a :| a in disk.dirs[txn].files;
        AbortOneArtifact(txn, a);
      }
      AbortOne(AbortDir(txn));
    }

    method AbortIdentityDir()
      requires Valid() && ClassOf(disk) in {K5a, K7} && AbortAudited(disk)
      modifies this
      ensures Valid() && AbortWrote(old(trace), trace)
      ensures ClassOf(disk) == ClassOf(old(disk)) && AbortAudited(disk)
      ensures disk == old(disk).(dirs := map[], tmps := {})
    {
      hide Valid;
      while disk.dirs != map[]
        invariant Valid() && AbortWrote(old(trace), trace) && ClassOf(disk) == ClassOf(old(disk)) && AbortAudited(disk)
        invariant disk == old(disk).(dirs := disk.dirs)
        decreases disk.dirs.Keys
      {
        var txn :| txn in disk.dirs;
        AbortOneDir(txn);
      }
      while disk.tmps != {}
        invariant Valid() && AbortWrote(old(trace), trace) && ClassOf(disk) == ClassOf(old(disk)) && AbortAudited(disk)
        invariant disk == old(disk).(dirs := map[], tmps := disk.tmps)
        decreases disk.tmps
      {
        var tmp :| tmp in disk.tmps;
        AbortOne(AbortTmp(tmp));
      }
    }

    method WriteAbortAudit(txn: Id)
      requires Valid() && ClassOf(disk) in {K5a, K7}
      modifies this
      ensures Valid() && AbortWrote(old(trace), trace)
      ensures ClassOf(disk) == ClassOf(old(disk)) && AbortAudited(disk) && disk == ApplyAbort(AbortAudit(txn), old(disk))
    {
      Do(Abort(AbortAudit(txn)));
    }

    method RemoveAbortManifest()
      requires Valid() && ClassOf(disk) in {K5a, K7} && AbortAudited(disk)
      modifies this
      ensures Valid() && AbortWrote(old(trace), trace)
      ensures ClassOf(disk) == K3 && disk == old(disk).(prep := NoManifest)
    {
      Do(Abort(AbortManifest));
    }

    /** `restore abort`: only while the authority is still E. It always reaches K3 with the
        identity untouched, nothing of the restore left, and the live database in place. */
    method AbortRestore() returns (ok: bool)
      requires Valid()
      modifies this
      ensures Valid() && AbortWrote(old(trace), trace)
      ensures ok <==> ClassOf(old(disk)) in {K5a, K7}
      ensures !ok ==> disk == old(disk)
      ensures ok ==> CleanK3(disk) && disk.record == old(disk).record && disk.archives == old(disk).archives
      ensures ok ==> disk.db == AddRow(old(disk).db, ServerRow(RestoreAbort,
                       if old(disk).prep.Parsed? then old(disk).prep.manifest.txn else 0))
    {
      ok := ClassOf(disk) in {K5a, K7};
      if ok {
        WriteAbortAudit(if disk.prep.Parsed? then disk.prep.manifest.txn else 0);
        AbortCandidates();
        AbortIdentityDir();
        RemoveAbortManifest();
      }
    }

    // --------------------------------------------- restore abort --orphans ----

    method OrphanOne(w: OrphanWrite)
      requires Valid() && ClassOf(disk) == K3
      modifies this
      ensures Valid() && OrphanWrote(old(trace), trace)
      ensures disk == ApplyOrphan(w, old(disk)) && ClassOf(disk) == K3
    {
      Do(Orphans(w));
    }

    method OrphanData()
      requires Valid() && ClassOf(disk) == K3
      modifies this
      ensures Valid() && OrphanWrote(old(trace), trace) && ClassOf(disk) == K3
      ensures disk == old(disk).(candidates := map[], candidateTmps := {})
    {
      while disk.candidates != map[]
        invariant Valid() && OrphanWrote(old(trace), trace) && ClassOf(disk) == K3
        invariant disk == old(disk).(candidates := disk.candidates)
        decreases disk.candidates.Keys
      {
        var txn :| txn in disk.candidates;
        OrphanOne(OrphanCandidate(txn));
      }
      while disk.candidateTmps != {}
        invariant Valid() && OrphanWrote(old(trace), trace) && ClassOf(disk) == K3
        invariant disk == old(disk).(candidates := map[], candidateTmps := disk.candidateTmps)
        decreases disk.candidateTmps
      {
        var txn :| txn in disk.candidateTmps;
        OrphanOne(OrphanCandidateTmp(txn));
      }
    }

    method OrphanIdentity()
      requires Valid() && ClassOf(disk) == K3
      modifies this
      ensures Valid() && OrphanWrote(old(trace), trace) && ClassOf(disk) == K3
      ensures disk == old(disk).(dirs := map[], tmps := {})
    {
      while disk.dirs != map[]
        invariant Valid() && OrphanWrote(old(trace), trace) && ClassOf(disk) == K3
        invariant disk == old(disk).(dirs := disk.dirs)
        decreases disk.dirs.Keys
      {
        var txn :| txn in disk.dirs;
        OrphanOne(OrphanDir(txn));
      }
      while disk.tmps != {}
        invariant Valid() && OrphanWrote(old(trace), trace) && ClassOf(disk) == K3
        invariant disk == old(disk).(dirs := map[], tmps := disk.tmps)
        decreases disk.tmps
      {
        var tmp :| tmp in disk.tmps;
        OrphanOne(OrphanTmp(tmp));
      }
    }

    method OrphanArchives()
      requires Valid() && ClassOf(disk) == K3
      modifies this
      ensures Valid() && OrphanWrote(old(trace), trace) && ClassOf(disk) == K3
      ensures disk == old(disk).(archives := map[])
    {
      while disk.archives != map[]
        invariant Valid() && OrphanWrote(old(trace), trace) && ClassOf(disk) == K3
        invariant disk == old(disk).(archives := disk.archives)
        decreases disk.archives.Keys
      {
        var slot :| slot in disk.archives;
        OrphanOne(DeleteArchive(slot));
      }
    }

    /** `restore abort --orphans`: only in K3. Every stray goes; the archives, the only copies of
        pre-restore databases, go only with `--delete-archives`. */
    method AbortOrphans(deleteArchives: bool) returns (ok: bool)
      requires Valid()
      modifies this
      ensures Valid() && OrphanWrote(old(trace), trace)
      ensures ok <==> ClassOf(old(disk)) == K3
      ensures !ok ==> disk == old(disk)
      ensures ok ==> CleanK3(disk) && disk == old(disk).(candidates := map[], candidateTmps := {}, dirs := map[], tmps := {},
                                                         archives := if deleteArchives then map[] else old(disk).archives)
    {
      ok := ClassOf(disk) == K3;
      if ok {
        OrphanData();
        OrphanIdentity();
        if deleteArchives {
          OrphanArchives();
        }
      }
    }

    // ----------------------------------------------------- restore prepare ----

    method PrepareOne(w: PrepareWrite)
      requires Valid() && PrepareAllowed(w, disk)
      modifies this
      ensures Valid() && PrepareWrote(old(trace), trace)
      ensures disk == ApplyPrepare(w, old(disk)) && disk.record == old(disk).record
      ensures ClassOf(disk) == if w.ManifestReady? then K7 else K3
    {
      PrepareKills(disk, w);
      Do(Prepare(w));
    }

    /** Step 1': the prepare audit, then a quiesced live database. */
    method AuditAndQuiesce(txn: Id)
      requires Valid() && ClassOf(disk) == K3
      modifies this
      ensures Valid() && PrepareWrote(old(trace), trace) && ClassOf(disk) == K3
      ensures disk == Quiesced(old(disk)).(db := AddRow(old(disk).db, ServerRow(RestorePrepare, txn)))
    {
      PrepareOne(PrepareAudit(txn));
      PrepareOne(PrepareQuiesce);
      PrepareOne(PrepareDropShm);
    }

    /** Step 2b: the artifacts, each a temporary file and a rename. */
    method WriteArtifacts(txn: Id, files: set<Artifact>)
      requires Valid() && ClassOf(disk) == K3 && txn in disk.dirs && disk.dirs[txn] == Dir({}, false)
      modifies this
      ensures Valid() && PrepareWrote(old(trace), trace) && ClassOf(disk) == K3
      ensures disk == old(disk).(dirs := old(disk).dirs[txn := Dir(files, false)])
    {
      var rest := files;
      ghost var done: set<Artifact> := {};
      assert old(disk).dirs == old(disk).dirs[txn := Dir(done, false)];
      while rest != {}
        invariant Valid() && PrepareWrote(old(trace), trace) && ClassOf(disk) == K3
        invariant done + rest == files && done !! rest
        invariant disk == old(disk).(dirs := old(disk).dirs[txn := Dir(done, false)])
        decreases rest
      {
        var a :| a in rest;
        WriteArtifact(txn, a);
        rest, done := rest - {a}, done + {a};
      }
      assert done == files;
    }

    method WriteArtifact(txn: Id, a: Artifact)
      requires Valid() && ClassOf(disk) == K3 && txn in disk.dirs
      modifies this
      ensures Valid() && PrepareWrote(old(trace), trace) && ClassOf(disk) == K3
      ensures disk == old(disk).(dirs := old(disk).dirs[txn := Dir(old(disk).dirs[txn].files + {a}, false)])
    {
      PrepareOne(ArtifactTmp(txn));
      PrepareOne(ArtifactReady(txn, a));
    }

    /** Step 2c: from here the restore is prepared. */
    method WriteManifest(p: Manifest)
      requires Valid() && ClassOf(disk) == K3 && ManifestFor(p, disk)
      modifies this
      ensures Valid() && PrepareWrote(old(trace), trace) && ClassOf(disk) == K7
      ensures disk == old(disk).(prep := Parsed(p), tmps := disk.tmps)
    {
      PrepareOne(PrepareTmp);
      PrepareOne(ManifestReady(p));
    }

    /** Steps 2a to 2c once the candidate is built. */
    method WritePrepared(txn: Id, candidate: Db, index: Index, files: set<Artifact>, p: Manifest)
      requires Valid() && ClassOf(disk) == K3 && txn in disk.candidateTmps && txn !in disk.dirs
      requires ManifestFor(p, disk)
      modifies this
      ensures Valid() && PrepareWrote(old(trace), trace) && ClassOf(disk) == K7
      ensures disk == old(disk).(prep := Parsed(p), tmps := disk.tmps, candidateTmps := old(disk).candidateTmps - {txn},
                                 candidates := old(disk).candidates[txn := candidate],
                                 dirs := old(disk).dirs[txn := Dir(files + {IndexFile(index)}, false)])
    {
      hide Valid;
      PrepareOne(CandidateReady(txn, candidate));
      PrepareOne(MakeDir(txn));
      WriteArtifacts(txn, files + {IndexFile(index)});
      WriteManifest(p);
    }

    method CandidateTmpFile(txn: Id)
      requires Valid() && ClassOf(disk) == K3
      modifies this
      ensures Valid() && PrepareWrote(old(trace), trace) && ClassOf(disk) == K3
      ensures disk == old(disk).(candidateTmps := old(disk).candidateTmps + {txn})
    {
      PrepareOne(CandidateTmp(txn));
    }

    method DropCandidateTmpFile(txn: Id)
      requires Valid() && ClassOf(disk) == K3
      modifies this
      ensures Valid() && PrepareWrote(old(trace), trace) && ClassOf(disk) == K3
      ensures disk == old(disk).(candidateTmps := old(disk).candidateTmps - {txn})
    {
      PrepareOne(DropCandidateTmp(txn));
    }

    method PrepareWith(c: Ctx, files: set<Artifact>)
      requires Valid() && ClassOf(disk) == K3 && c.p.txn in disk.candidateTmps && c.p.txn !in disk.dirs
      requires Sound(c) && IdsAgree(c) && disk.record == Some(c.e) && disk.db == Some(Whole(c.live))
      modifies this
      ensures Valid() && PrepareWrote(old(trace), trace) && At7(c, disk)
      ensures c.p.txn in disk.dirs && files <= disk.dirs[c.p.txn].files && IndexOf(disk, c.p) == Some(c.index)
      ensures disk.archives == old(disk).archives && disk.sidecars == old(disk).sidecars
    {
      WritePrepared(c.p.txn, c.candidate, c.index, files, c.p);
    }

    method PrepareBuilt(x: Record, live: Db, txn: Id, bk: Plane, cover: DataPlane.Cover, plane: Plane, backupDb: Sha, at: nat)
      returns (ghost c: Ctx)
      requires Valid() && ClassOf(disk) == K3 && txn in disk.candidateTmps && txn !in disk.dirs
      requires disk.record == Some(x) && disk.db == Some(Whole(live)) && LiveAt(x, live, txn)
      requires live.plane.profiles.Keys == bk.profiles.Keys && DataPlane.Readable(bk, x.instance)
      requires plane == DataPlane.Merged(live.plane, bk, x.epoch + 1)
      modifies this
      ensures Valid() && PrepareWrote(old(trace), trace)
      ensures IsPrepared(c, x, live, bk, cover, txn, disk)
      ensures disk.archives == old(disk).archives && disk.sidecars == old(disk).sidecars
    {
      var entries := DataPlane.EntriesOf(live.plane, x.instance, x.epoch, cover);
      var made := CtxOf(x, live, plane, entries, txn, backupDb, at);
      CtxIsSound(x, live, plane, entries, txn, backupDb, at);
      PrepareWith(made, DataPlane.FilesOf(live.plane, x.instance, x.epoch));
      c := made;
    }

    /** Step 2a: the candidate under its temporary name, removed again on a refusal. */
    method MakeCandidate(x: Record, live: Db, txn: Id, bk: Plane, trusted: set<Id>, intact: bool)
      returns (built: Option<(DataPlane.Cover, Plane)>)
      requires Valid() && ClassOf(disk) == K3 && disk.candidateTmps == {}
      modifies this
      ensures Valid() && PrepareWrote(old(trace), trace) && ClassOf(disk) == K3
      ensures disk == old(disk).(candidateTmps := if built.Some? then {txn} else {})
      ensures built.Some? <==> Prepares(live.plane, bk, x, trusted, intact)
      ensures built.Some? ==> DataPlane.Accepted(live.plane, bk, x.instance, x.epoch, built.value.0, trusted)
      ensures built.Some? ==> built.value.1 == DataPlane.Merged(live.plane, bk, x.epoch + 1)
    {
      CandidateTmpFile(txn);
      assert disk.candidateTmps == {txn};
      built := BuildCandidate(live.plane, bk, x, trusted, intact);
      if built.None? {
        DropCandidateTmpFile(txn);
        assert disk.candidateTmps == {};
      }
    }

    /** A prepare from a clean K3. */
    method PrepareClean(x: Record, live: Db, txn: Id, bk: Plane, backupDb: Sha, trusted: set<Id>, intact: bool, at: nat)
      returns (ok: bool, ghost c: Ctx, ghost cover: DataPlane.Cover)
      requires Valid() && ClassOf(disk) == K3 && disk.dirs == map[] && disk.candidateTmps == {}
      requires disk.record == Some(x) && disk.db == Some(Whole(live)) && LiveAt(x, live, txn)
      modifies this
      ensures Valid() && PrepareWrote(old(trace), trace)
      ensures ok <==> Prepares(live.plane, bk, x, trusted, intact)
      ensures !ok ==> disk == old(disk)
      ensures ok ==> IsPrepared(c, x, live, bk, cover, txn, disk)
      ensures ok ==> DataPlane.Accepted(live.plane, bk, x.instance, x.epoch, cover, trusted)
      ensures disk.archives == old(disk).archives && disk.sidecars == old(disk).sidecars
    {
      c, cover := *, *;
      var built := MakeCandidate(x, live, txn, bk, trusted, intact);
      ok := built.Some?;
      if ok {
        cover := built.value.0;
        c := PrepareBuilt(x, live, txn, bk, built.value.0, built.value.1, backupDb, at);
      }
    }

    /** `restore prepare`. It accepts exactly what `Prepares` says, and then every later
        phase of the restore is fixed; a refusal leaves K3 and nothing but the audit row. */
    method PrepareRestore(txn: Id, bk: Plane, backupDb: Sha, trusted: set<Id>, intact: bool, at: nat)
      returns (ok: bool, ghost c: Ctx, ghost cover: DataPlane.Cover)
      requires Valid()
      modifies this
      ensures Valid() && PrepareWrote(old(trace), trace)
      ensures ok <==> txn != 0 && CleanK3(old(disk))
                      && Prepares(old(disk).db.value.db.plane, bk, old(disk).record.value, trusted, intact)
      ensures !ok ==> disk == old(disk)
                      || disk == Quiesced(old(disk)).(db := AddRow(old(disk).db, ServerRow(RestorePrepare, txn)))
      ensures ok ==> Some(Whole(c.live)) == AddRow(old(disk).db, ServerRow(RestorePrepare, txn))
      ensures ok ==> IsPrepared(c, old(disk).record.value, c.live, bk, cover, txn, disk)
      ensures ok ==> DataPlane.Accepted(c.live.plane, bk, old(disk).record.value.instance,
                                        old(disk).record.value.epoch, cover, trusted)
      ensures disk.archives == old(disk).archives
      ensures ok ==> Empties(disk.sidecars) && Shm !in disk.sidecars
    {
      c, cover := *, *;
      if txn == 0 || !CleanK3(disk) {
        return false, c, cover;
      }
      K3Facts(disk);
      AuditAndQuiesce(txn);
      ok, c, cover := PrepareClean(disk.record.value, disk.db.value.db, txn, bk, backupDb, trusted, intact, at);
    }
  }

  // ------------------------------------------------- a taken archive name ----

  /** `prepare` succeeds exactly as it would with the archive name free, and then the commit that
      writes record E + 1 strands the restore. */
  lemma PreparedIsStranded(c: Ctx, x: Record, live: Db, bk: Plane, cover: DataPlane.Cover, txn: Id, d: Disk, at: nat, ws: seq<Write>)
    requires IsPrepared(c, x, live, bk, cover, txn, d) && Empties(d.sidecars) && Shm !in d.sidecars
    requires (txn, Main) in d.archives && d.archives[(txn, Main)] != Empty && d.archives[(txn, Main)] != DbContent(live)
    ensures At7(c, d) && SlotTaken(c, d) && Allowed(Commit(RecordNext(at)), d)
    ensures Run(Apply(Commit(RecordNext(at)), d), ws) ==> ClassOf(After(Apply(Commit(RecordNext(at)), d), ws)) == K8
  {
    hide DataPlane.Merged, DataPlane.EntriesOf, DataPlane.FilesOf, DataPlane.Readable, Run;
    StepThreeIgnoresTheArchive(c, d, at);
    if Run(Apply(Commit(RecordNext(at)), d), ws) {
      ATakenArchiveStrandsTheRestore(c, Apply(Commit(RecordNext(at)), d), ws);
    }
  }

  /** A clean K3 of a server without profiles, whose archive for transaction 9 holds `archived`. */
  function SampleDisk(archived: Db): Disk {
    var x := Record(5, 0, 0, OtherSha(0), OtherSha(0), 0);
    var db := Db(Some(Mirror(5, 0, OfRecord(x))), [], {}, SamplePlane());
    Disk(Some(x), NoManifest, {}, map[], Some(Whole(db)), map[], map[], {}, map[(9, Main) := DbContent(archived)])
  }

  function SamplePlane(): Plane { Plane(map[], map[], map[], map[], map[], {}, 0) }

  lemma SamplePrepares(x: Record)
    requires x.instance == 5 && x.epoch == 0
    ensures Prepares(SamplePlane(), SamplePlane(), x, {}, true)
  {
    var pl := SamplePlane();
    var none: DataPlane.Cover := map[];
    assert DataPlane.HeadsOf(pl, 5) == map[];
    assert DataPlane.IsCover(DataPlane.HeadsOf(pl, 5), DataPlane.HeadsOf(pl, 5), none);
    assert DataPlane.RowsAt(pl, 5, 0) == map[];
    assert DataPlane.Staged(pl, 5, 0, none, {});
    assert DataPlane.Moved(pl, pl) == pl;
  }

  lemma SampleIsClean(archived: Db)
    ensures CleanK3(SampleDisk(archived))
  {
  }

  lemma AuditedIsNot(before: Option<DbFile>, live: Db, archived: Db, row: AuditRow)
    requires Some(Whole(live)) == AddRow(before, row) && before.Some? && before.value.Whole? && archived.log == []
    ensures live != archived
  {
  }

  /** It happens: a prepare under a transaction id whose archive holds an older database. */
  method PrepareUnderATakenName(archived: Db) returns (site: Site, ghost c: Ctx)
    requires archived.log == []
    ensures fresh(site) && site.Valid() && site.start == SampleDisk(archived) && CleanK3(site.start)
    ensures At7(c, site.disk) && SlotTaken(c, site.disk) && forall at :: Allowed(Commit(RecordNext(at)), site.disk)
  {
    var d := SampleDisk(archived);
    SampleIsClean(archived);
    SamplePrepares(d.record.value);
    assert d.archives == map[(9, Main) := DbContent(archived)] && d.db.Some? && d.db.value.Whole?;
    var x, bk := d.record.value, SamplePlane();
    assert x.instance == 5;
    assert d.db.value.db.plane == bk;
    hide *;
    site := new Site(d);
    ghost var cover;
    var ok;
    ok, c, cover := site.PrepareRestore(9, bk, OtherSha(1), {}, true, 0);
    AuditedIsNot(d.db, c.live, archived, ServerRow(RestorePrepare, 9));
    assert site.disk.archives == d.archives;
    forall at ensures At7(c, site.disk) && SlotTaken(c, site.disk) && Allowed(Commit(RecordNext(at)), site.disk) {
      PreparedIsStranded(c, x, c.live, bk, cover, 9, site.disk, at, []);
    }
    PreparedIsStranded(c, x, c.live, bk, cover, 9, site.disk, 0, []);
  }
}

/** How a restore-epoch transition gets into the table a restore stages from, and out of it again.
    Source: server/src/routes/v2_restore_epoch.rs, server/src/restore.rs. */
module TransitionFiling {
  import opened Wrappers
  import opened RestoreTypes
  import DataPlane

  type Rows = map<TransitionKey, StagedRow>

  datatype Answer = Created | Forbidden | Mismatch | Stale | ProofMissing | NotInRoot | NotTheLeafSet

  /** What a custodian's device presents: the signed transition, its replay id, its proofs. */
  datatype Filing = Filing(exact: Transition, replay: Id, proofs: seq<Proof>)

  function KeyOf(t: Transition): TransitionKey { TransitionKey(t.instance, t.tenant, t.previous, t.next) }

  /** A proof of one of the leaves the signed root commits to. */
  predicate Included(t: Transition, p: Proof) {
    p.tenant == t.tenant && p.profile in t.root && t.root[p.profile] == p.leaf
  }

  /** Another row of the tenant under these epochs or this replay id. */
  predicate Taken(rows: Rows, f: Filing) {
    exists k :: k in rows && k.instance == f.exact.instance && k.tenant == f.exact.tenant
                && ((k.previous == f.exact.previous && k.next == f.exact.next) || rows[k].replay == f.replay)
  }

  predicate Identical(rows: Rows, f: Filing) {
    var k := KeyOf(f.exact);
    k in rows && rows[k].exact == f.exact && rows[k].proofs == f.proofs
  }

  /** The answer, in the code's order. `authorised` stands for session, custody and signature. */
  function AnswerTo(rows: Rows, tenant: Id, instance: Id, epoch: nat, f: Filing, authorised: bool): Answer {
    if !authorised || f.exact.tenant != tenant || f.exact.instance != instance then Forbidden
    else if Taken(rows, f) then if Identical(rows, f) then Created else Mismatch
    else if f.exact.previous != epoch || f.exact.next != f.exact.previous + 1 then Stale
    else if |f.proofs| != f.exact.count then ProofMissing
    else if exists p :: p in f.proofs && !Included(f.exact, p) then NotInRoot
    else if f.proofs != DataPlane.ProofsOf(f.exact.tenant, f.exact.root) then NotTheLeafSet
    else Created
  }

  function RowOf(f: Filing): StagedRow { StagedRow(f.exact, f.exact.count, f.replay, f.proofs) }

  datatype Step =
    | FileStep(tenant: Id, instance: Id, epoch: nat, filing: Filing, authorised: bool)
    | WithdrawStep(tenant: Id, instance: Id, epoch: nat)

  function Apply(rows: Rows, w: Step): Rows {
    match w
    case FileStep(tenant, instance, epoch, f, authorised) =>
      if AnswerTo(rows, tenant, instance, epoch, f, authorised) == Created && !Taken(rows, f)
      then rows[KeyOf(f.exact) := RowOf(f)] else rows
    case WithdrawStep(tenant, instance, epoch) => rows - {TransitionKey(instance, tenant, epoch, epoch + 1)}
  }

  function After(rows: Rows, ws: seq<Step>): Rows {
    if ws == [] then rows else Apply(After(rows, ws[..|ws| - 1]), ws[|ws| - 1])
  }

  /** What filing leaves of every row: its key and its count column are those of the signed
      transition, its proofs exactly the leaves it signs. */
  ghost predicate Filed(rows: Rows) {
    forall k | k in rows ::
      && k == KeyOf(rows[k].exact) && rows[k].count == rows[k].exact.count
      && DataPlane.Signs(rows[k], k.instance, k.tenant, k.previous, rows[k].exact.root)
  }

  lemma {:induction false} OneProofALeaf(t: Transition)
    ensures |DataPlane.ProofsOf(t.tenant, t.root)| == |t.root|
  {
    assert |DataPlane.InOrder(t.root.Keys)| == |t.root.Keys| == |t.root|;
  }

  lemma FiledRow(rows: Rows, w: Step)
    requires w.FileStep? && !Taken(rows, w.filing)
    requires AnswerTo(rows, w.tenant, w.instance, w.epoch, w.filing, w.authorised) == Created
    ensures var t := w.filing.exact; DataPlane.Signs(RowOf(w.filing), t.instance, t.tenant, t.previous, t.root)
  {
    hide Taken, DataPlane.ProofsOf;
    OneProofALeaf(w.filing.exact);
  }

  lemma StepKeepsFiled(rows: Rows, w: Step)
    requires Filed(rows)
    ensures Filed(Apply(rows, w))
  {
    if w.FileStep? && AnswerTo(rows, w.tenant, w.instance, w.epoch, w.filing, w.authorised) == Created && !Taken(rows, w.filing) {
      FiledRow(rows, w);
    }
    hide AnswerTo, Taken, DataPlane.Signs;
  }

  /** Over every run of filings and withdrawals the count columns are the signed counts. */
  lemma {:induction false} FiledOverRuns(rows: Rows, ws: seq<Step>)
    requires Filed(rows)
    ensures Filed(After(rows, ws))
    decreases |ws|
  {
    if ws != [] {
      FiledOverRuns(rows, ws[..|ws| - 1]);
      StepKeepsFiled(After(rows, ws[..|ws| - 1]), ws[|ws| - 1]);
    }
  }

  /** So on a table that only filing and withdrawing have written, step 5 accepts every candidate
      prepare accepts; the refusal it can make needs a row changed by something else. */
  lemma FiledRowsVerify(live: Plane, bk: Plane, instance: Id, epoch: nat, cover: DataPlane.Cover, trusted: set<Id>,
                        installed: Plane, files: set<Artifact>, ws: seq<Step>)
    requires live.transitions == After(map[], ws)
    requires DataPlane.Accepted(live, bk, instance, epoch, cover, trusted)
    requires installed == DataPlane.Merged(live, bk, epoch + 1).(scratch := installed.scratch)
    requires DataPlane.FilesOf(live, instance, epoch) <= files
    ensures DataPlane.CountsAgree(live, instance, epoch)
    ensures DataPlane.Installed(installed, instance, epoch, DataPlane.EntriesOf(live, instance, epoch, cover), files)
  {
    hide DataPlane.Installed, DataPlane.Merged, DataPlane.FilesOf, DataPlane.EntriesOf, DataPlane.Accepted;
    FiledOverRuns(map[], ws);
    FiledCountsAgree(live, instance, epoch);
    DataPlane.VerifyAgreesWithPrepare(live, bk, instance, epoch, cover, trusted, installed, files);
  }

  lemma FiledCountsAgree(pl: Plane, instance: Id, epoch: nat)
    requires Filed(pl.transitions)
    ensures DataPlane.CountsAgree(pl, instance, epoch)
  {
    var rows := DataPlane.RowsAt(pl, instance, epoch);
    forall t | t in rows ensures rows[t].count == rows[t].exact.count {
      assert TransitionKey(instance, t, epoch, epoch + 1) in pl.transitions;
    }
  }

  class Table {
    var rows: Rows

    constructor (rows: Rows)
      ensures this.rows == rows
    {
      this.rows := rows;
    }

    /** The filing route, in its one transaction. */
    method File(tenant: Id, instance: Id, epoch: nat, f: Filing, authorised: bool) returns (answer: Answer)
      modifies this
      ensures answer == AnswerTo(old(rows), tenant, instance, epoch, f, authorised)
      ensures rows == Apply(old(rows), FileStep(tenant, instance, epoch, f, authorised))
      ensures answer == Created ==> Identical(rows, f)
    {
      hide DataPlane.ProofsOf, Taken, Included;
      var t := f.exact;
      if !authorised || t.tenant != tenant || t.instance != instance {
        return Forbidden;
      }
      if Taken(rows, f) {
        return if Identical(rows, f) then Created else Mismatch;
      }
      if t.previous != epoch || t.next != t.previous + 1 {
        return Stale;
      }
      if |f.proofs| != t.count {
        return ProofMissing;
      }
      for n := 0 to |f.proofs|
        invariant forall i | 0 <= i < n :: Included(t, f.proofs[i])
      {
        if !Included(t, f.proofs[n]) {
          return NotInRoot;
        }
      }
      if f.proofs != DataPlane.ProofsOf(t.tenant, t.root) {
        return NotTheLeafSet;
      }
      rows := rows[TransitionKey(t.instance, t.tenant, t.previous, t.next) := StagedRow(t, t.count, f.replay, f.proofs)];
      return Created;
    }

    /** `restore withdraw-transitions` for one tenant. */
    method Withdraw(tenant: Id, instance: Id, epoch: nat) returns (ok: bool)
      modifies this
      ensures ok <==> TransitionKey(instance, tenant, epoch, epoch + 1) in old(rows)
      ensures rows == Apply(old(rows), WithdrawStep(tenant, instance, epoch))
    {
      var k := TransitionKey(instance, tenant, epoch, epoch + 1);
      ok := k in rows;
      if ok {
        rows := rows - {k};
      }
    }
  }
}

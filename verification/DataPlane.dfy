/** The data plane of a restore: which profile heads need a transition leaf
    (`coverage`), what the candidate keeps (`merge`), and what step 5 verifies in
    the installed database (`verify_installed`). Source: server/src/restore.rs. */
module DataPlane {
  import opened Wrappers
  import opened RestoreTypes
  import Extremes

  type Heads = map<Key, Option<Head>>
  type Cover = map<Id, Leaves>

  // ---------------------------------------------------------------- heads ----

  /** One row of the LEFT JOIN: a head at version > 0, none at version 0, else a refusal. */
  function HeadAt(pl: Plane, instance: Id, k: Key): (r: Result<Option<Head>, Key>)
    requires k in pl.profiles
  {
    var v := pl.profiles[k].version;
    var s := SnapKey(instance, k.tenant, k.profile, v);
    if s in pl.snapshots then
      if v > 0 then Ok(Some(pl.snapshots[s].head)) else Err(k)
    else
      if v == 0 then Ok(None) else Err(k)
  }

  predicate Readable(pl: Plane, instance: Id) {
    forall k | k in pl.profiles :: HeadAt(pl, instance, k).Ok?
  }

  function HeadsOf(pl: Plane, instance: Id): Heads
    requires Readable(pl, instance)
  {
    map k | k in pl.profiles :: HeadAt(pl, instance, k).value
  }

  method ReadHeads(pl: Plane, instance: Id) returns (r: Option<Heads>)
    ensures r.Some? <==> Readable(pl, instance)
    ensures r.Some? ==> r.value == HeadsOf(pl, instance)
  {
    var rest := pl.profiles.Keys;
    var out: Heads := map[];
    while rest != {}
      invariant rest <= pl.profiles.Keys
      invariant out.Keys == pl.profiles.Keys - rest
      invariant forall k | k in out :: HeadAt(pl, instance, k) == Ok(out[k])
      decreases rest
    {
      var k :| k in rest;
      var head := HeadAt(pl, instance, k);
      if head.Err? {
        return None;
      }
      out := out[k := head.value];
      rest := rest - {k};
    }
    return Some(out);
  }

  // ------------------------------------------------------------- coverage ----

  predicate Coverable(live: Heads, backup: Heads) {
    && live.Keys == backup.Keys
    && forall k | k in live :: live[k].Some? <==> backup[k].Some?
  }

  function Headed(live: Heads): set<Key> {
    set k | k in live && live[k].Some?
  }

  /** The leaves `coverage` must produce: exactly the profiles with a head, live head to backup head. */
  ghost predicate IsCover(live: Heads, backup: Heads, out: Cover)
    requires Coverable(live, backup)
  {
    && (forall t | t in out :: out[t] != map[])
    && (forall t, p :: t in out && p in out[t] <==> Key(t, p) in Headed(live))
    && (forall t, p | t in out && p in out[t] ::
          out[t][p] == Leaf(live[Key(t, p)].value, backup[Key(t, p)].value))
  }

  method Coverage(live: Heads, backup: Heads) returns (r: Option<Cover>)
    ensures r.Some? <==> Coverable(live, backup)
    ensures r.Some? ==> IsCover(live, backup, r.value)
  {
    if live.Keys != backup.Keys {
      return None;
    }
    var rest := live.Keys;
    var out: Cover := map[];
    while rest != {}
      invariant rest <= live.Keys
      invariant forall k | k in live && k !in rest :: live[k].Some? <==> backup[k].Some?
      invariant forall t | t in out :: out[t] != map[]
      invariant forall t, p :: t in out && p in out[t] <==> Key(t, p) in Headed(live) && Key(t, p) !in rest
      invariant forall t, p | t in out && p in out[t] ::
          Key(t, p) in backup && backup[Key(t, p)].Some? &&
          out[t][p] == Leaf(live[Key(t, p)].value, backup[Key(t, p)].value)
      decreases rest
    {
      var k :| k in rest;
      match (live[k], backup[k]) {
        case (None, None) =>
        case (Some(previous), Some(next)) =>
          var before: Leaves := if k.tenant in out then out[k.tenant] else map[];
          var leaves: Leaves := before[k.profile := Leaf(previous, next)];
          assert k.profile in leaves;
          out := out[k.tenant := leaves];
        case _ =>
          return None;
      }
      rest := rest - {k};
    }
    return Some(out);
  }

  /** The leaf set is a function of the two head maps. */
  lemma CoverIsUnique(live: Heads, backup: Heads, a: Cover, b: Cover)
    requires Coverable(live, backup) && IsCover(live, backup, a) && IsCover(live, backup, b)
    ensures a == b
  {
    forall t | t in a ensures t in b {
      var p :| p in a[t];
      assert Key(t, p) in Headed(live);
    }
    forall t | t in b ensures t in a {
      var p :| p in b[t];
      assert Key(t, p) in Headed(live);
    }
    forall t | t in a ensures a[t] == b[t] {
      forall p ensures p in a[t] <==> p in b[t] {
        assert p in a[t] <==> Key(t, p) in Headed(live);
      }
    }
  }

  // --------------------------------------------------- staged transitions ----

  /** The ids of a BTreeMap, in its iteration order. */
  function InOrder(s: set<Id>): (r: seq<Id>)
    ensures |r| == |s|
    ensures forall x :: x in r <==> x in s
    ensures forall i, j | 0 <= i < j < |r| :: r[i] < r[j]
  {
    if s == {} then []
    else
      var m := Extremes.Least(s);
      [m] + InOrder(s - {m})
  }

  function ProofsIn(t: Id, ids: seq<Id>, leaves: Leaves): (r: seq<Proof>)
    requires forall p | p in ids :: p in leaves
    ensures |r| == |ids|
    ensures forall i | 0 <= i < |r| :: r[i] == Proof(t, ids[i], leaves[ids[i]])
  {
    if ids == [] then [] else ProofsIn(t, ids[..|ids| - 1], leaves) + [Proof(t, ids[|ids| - 1], leaves[ids[|ids| - 1]])]
  }

  /** The i-th proof of a tenant proves its i-th leaf. */
  function ProofsOf(t: Id, leaves: Leaves): seq<Proof> {
    ProofsIn(t, InOrder(leaves.Keys), leaves)
  }

  function RowsAt(pl: Plane, instance: Id, epoch: nat): (rows: map<Id, StagedRow>)
    ensures forall t :: t in rows <==> TransitionKey(instance, t, epoch, epoch + 1) in pl.transitions
    ensures forall t | t in rows :: rows[t] == pl.transitions[TransitionKey(instance, t, epoch, epoch + 1)]
  {
    var ts := set k | k in pl.transitions && k.instance == instance && k.previous == epoch && k.next == epoch + 1 :: k.tenant;
    assert forall t | TransitionKey(instance, t, epoch, epoch + 1) in pl.transitions :: t in ts by {
      forall t | TransitionKey(instance, t, epoch, epoch + 1) in pl.transitions ensures t in ts {
        assert TransitionKey(instance, t, epoch, epoch + 1).tenant == t;
      }
    }
    map t | t in ts :: pl.transitions[TransitionKey(instance, t, epoch, epoch + 1)]
  }

  predicate Signs(row: StagedRow, instance: Id, t: Id, epoch: nat, leaves: Leaves) {
    && row.exact.tenant == t
    && row.exact.instance == instance
    && row.exact.previous == epoch
    && row.exact.next == epoch + 1
    && row.exact.count == |leaves|
    && row.exact.root == leaves
    && row.proofs == ProofsOf(t, leaves)
  }

  /** `staged`: exactly one transition per covered tenant, each signing exactly the
      computed leaves. `trusted` holds the tenants whose signer is a live unrevoked
      custodian and whose signature verifies. */
  predicate Staged(pl: Plane, instance: Id, epoch: nat, cover: Cover, trusted: set<Id>) {
    var rows := RowsAt(pl, instance, epoch);
    && rows.Keys == cover.Keys
    && forall t | t in cover :: t in trusted && Signs(rows[t], instance, t, epoch, cover[t])
  }

  /** The index entries and artifact files prepare writes for the staged set. */
  function EntriesOf(pl: Plane, instance: Id, epoch: nat, cover: Cover): map<Id, IndexEntry> {
    var rows := RowsAt(pl, instance, epoch);
    map t | t in cover && t in rows :: IndexEntry(rows[t].exact, |cover[t]|, rows[t].proofs)
  }

  function FilesOf(pl: Plane, instance: Id, epoch: nat): (files: set<Artifact>)
    ensures forall a | a in files :: !a.IndexFile?
  {
    var rows := RowsAt(pl, instance, epoch);
    (set t | t in rows :: TransitionFile(rows[t].exact))
    + (set t, p | t in rows && p in rows[t].proofs :: ProofFile(p))
  }

  // ---------------------------------------------------------------- merge ----

  predicate Referenced(bk: Plane, u: UploadKey) {
    exists s :: s in bk.snapshots && s.instance == u.instance && s.tenant == u.tenant && bk.snapshots[s].upload == u.upload
  }

  /** Whether a succeeded ledger row's result is still in the merged data plane. */
  predicate Kept(pl: Plane, op: Operation) {
    match op.answer
    case CommitOf(upload, version, snapshot) =>
      exists s :: s in pl.snapshots && s.tenant == op.tenant && s.version == version
                  && pl.snapshots[s].upload == upload && pl.snapshots[s].id == snapshot
    case PublishOf(profile) => Key(op.tenant, profile) in pl.profiles
    case UploadOf(upload) => exists u :: u in pl.uploads && u.tenant == op.tenant && u.upload == upload
    case Unreadable => false
    case OtherKind => true
  }

  function Supersede(pl: Plane, op: Operation, next: nat): Operation {
    if op.succeeded && !Kept(pl, op) then op.(superseded := Some(next)) else op
  }

  /** The candidate's data plane before the ledger is marked. */
  function Moved(live: Plane, bk: Plane): Plane
    requires live.profiles.Keys <= bk.profiles.Keys
  {
    live.(
      snapshots := bk.snapshots,
      uploads := map u | u in bk.uploads && bk.uploads[u].state == Committed && Referenced(bk, u) :: bk.uploads[u],
      profiles := map k | k in live.profiles ::
          Profile(live.profiles[k].fleet, bk.profiles[k].version,
                  if live.profiles[k].fence < bk.profiles[k].fence then bk.profiles[k].fence else live.profiles[k].fence),
      scratch := {})
  }

  function Merged(live: Plane, bk: Plane, next: nat): Plane
    requires live.profiles.Keys <= bk.profiles.Keys
  {
    var pl := Moved(live, bk);
    pl.(ledger := map i | i in live.ledger :: Supersede(pl, live.ledger[i], next))
  }

  predicate LedgerReadable(pl: Plane) {
    forall i | i in pl.ledger && pl.ledger[i].succeeded :: !pl.ledger[i].answer.Unreadable?
  }

  /** The row checks `merge` makes on the data plane it built. */
  predicate OwnRows(pl: Plane, instance: Id) {
    && (forall s | s in pl.snapshots :: s.instance == instance)
    && (forall u | u in pl.uploads :: u.instance == instance)
    && (forall s | s in pl.snapshots && Key(s.tenant, s.profile) in pl.profiles ::
          pl.snapshots[s].fleet == pl.profiles[Key(s.tenant, s.profile)].fleet
          && s.version <= pl.profiles[Key(s.tenant, s.profile)].version)
  }

  method MarkLedger(pl: Plane, ledger: map<nat, Operation>, next: nat) returns (r: Option<map<nat, Operation>>)
    ensures r.Some? <==> forall i | i in ledger && ledger[i].succeeded :: !ledger[i].answer.Unreadable?
    ensures r.Some? ==> r.value == map i | i in ledger :: Supersede(pl, ledger[i], next)
  {
    var rest := ledger.Keys;
    var marked := ledger;
    while rest != {}
      invariant rest <= ledger.Keys && marked.Keys == ledger.Keys
      invariant forall i | i in ledger :: marked[i] == if i in rest then ledger[i] else Supersede(pl, ledger[i], next)
      invariant forall i | i in ledger && i !in rest && ledger[i].succeeded :: !ledger[i].answer.Unreadable?
      decreases rest
    {
      var i :| i in rest;
      if marked[i].succeeded {
        if marked[i].answer.Unreadable? {
          return None;
        }
        if !Kept(pl, marked[i]) {
          marked := marked[i := marked[i].(superseded := Some(next))];
        }
      }
      rest := rest - {i};
    }
    return Some(marked);
  }

  /** One statement after another, as the transaction runs them. */
  method MoveRows(live: Plane, bk: Plane) returns (pl: Plane)
    requires live.profiles.Keys == bk.profiles.Keys
    ensures pl == Moved(live, bk)
  {
    hide Referenced;
    var snapshots: map<SnapKey, Snapshot> := map[];
    var uploads := map u | u in bk.uploads && bk.uploads[u].state == Committed && Referenced(bk, u) :: bk.uploads[u];
    snapshots := bk.snapshots;
    var profiles := map k | k in live.profiles :: live.profiles[k].(version := bk.profiles[k].version);
    profiles := map k | k in profiles ::
        if profiles[k].fence < bk.profiles[k].fence then profiles[k].(fence := bk.profiles[k].fence) else profiles[k];
    assert profiles == Moved(live, bk).profiles;
    pl := live.(snapshots := snapshots, uploads := uploads, profiles := profiles, scratch := {});
  }

  /** `intact` stands for the checks on what the model does not hold: signers, foreign keys, blobs. */
  method Merge(live: Plane, bk: Plane, instance: Id, next: nat, intact: bool) returns (r: Option<Plane>)
    requires live.profiles.Keys == bk.profiles.Keys
    ensures r.Some? <==> intact && LedgerReadable(live) && OwnRows(Moved(live, bk), instance)
    ensures r.Some? ==> r.value == Merged(live, bk, next)
  {
    var pl := MoveRows(live, bk);
    var marked := MarkLedger(pl, live.ledger, next);
    if marked.None? {
      return None;
    }
    if !OwnRows(pl, instance) || !intact {
      return None;
    }
    return Some(pl.(ledger := marked.value));
  }

  /** The restored data plane has exactly the backup's heads. */
  lemma MergeRestoresHeads(live: Plane, bk: Plane, instance: Id, next: nat)
    requires live.profiles.Keys == bk.profiles.Keys && Readable(bk, instance)
    ensures Readable(Merged(live, bk, next), instance)
    ensures HeadsOf(Merged(live, bk, next), instance) == HeadsOf(bk, instance)
  {
    var pl := Merged(live, bk, next);
    forall k | k in pl.profiles ensures HeadAt(pl, instance, k) == HeadAt(bk, instance, k) {
      assert k in bk.profiles;
    }
    assert forall k | k in bk.profiles :: HeadAt(bk, instance, k).Ok?;
  }

  /** A fence never moves back, in either direction, and is never invented. */
  lemma MergeKeepsTheHigherFence(live: Plane, bk: Plane, next: nat, k: Key)
    requires live.profiles.Keys == bk.profiles.Keys && k in live.profiles
    ensures var fence := Merged(live, bk, next).profiles[k].fence;
            && live.profiles[k].fence <= fence && bk.profiles[k].fence <= fence
            && fence in {live.profiles[k].fence, bk.profiles[k].fence}
  {
  }

  /** In the candidate, an operation that answers as succeeded and is not marked superseded still
      names rows that are there. */
  lemma UnmarkedAnswersStillHold(live: Plane, bk: Plane, next: nat, i: nat)
    requires live.profiles.Keys == bk.profiles.Keys && i in live.ledger
    ensures var pl := Merged(live, bk, next);
            && i in pl.ledger && pl.ledger[i].answer == live.ledger[i].answer && pl.ledger[i].succeeded == live.ledger[i].succeeded
            && (pl.ledger[i].succeeded && pl.ledger[i].superseded == None ==> Kept(pl, pl.ledger[i]))
            && (!pl.ledger[i].succeeded || Kept(pl, pl.ledger[i]) ==> pl.ledger[i] == live.ledger[i])
  {
    var moved, pl := Moved(live, bk), Merged(live, bk, next);
    assert Kept(pl, live.ledger[i]) == Kept(moved, live.ledger[i]);
    assert Kept(pl, pl.ledger[i]) == Kept(pl, live.ledger[i]);
  }

  // ----------------------------------------------------- verify_installed ----

  /** The heads a proof sequence covers; a later leaf of a profile replaces an earlier one. */
  function Covered(proofs: seq<Proof>): map<Key, Head> {
    if proofs == [] then map[]
    else
      var last := proofs[|proofs| - 1];
      Covered(proofs[..|proofs| - 1])[Key(last.tenant, last.profile) := last.leaf.next]
  }

  predicate RowMatches(row: StagedRow, t: Id, e: IndexEntry, files: set<Artifact>) {
    && row.exact == e.exact
    && row.count == e.count
    && TransitionFile(row.exact) in files
    && |row.proofs| == e.count
    && row.proofs == e.proofs
    && (forall p | p in row.proofs :: ProofFile(p) in files && p.tenant == t)
  }

  function WithHeads(h: Heads): map<Key, Head> {
    map k | k in h && h[k].Some? :: h[k].value
  }

  function CoveredBy(rows: map<Id, StagedRow>, ts: set<Id>): map<Key, Head>
    requires ts <= rows.Keys
  {
    var keys := set t, k | t in ts && k in Covered(rows[t].proofs) && k.tenant == t :: k;
    map k | k in keys :: Covered(rows[k.tenant].proofs)[k]
  }

  /** The installed transitions are the artifacts, and their leaves cover exactly the installed heads. */
  predicate Installed(pl: Plane, instance: Id, epoch: nat, entries: map<Id, IndexEntry>, files: set<Artifact>) {
    var rows := RowsAt(pl, instance, epoch);
    && rows.Keys == entries.Keys
    && (forall t | t in entries :: RowMatches(rows[t], t, entries[t], files))
    && Readable(pl, instance)
    && WithHeads(HeadsOf(pl, instance)) == CoveredBy(rows, entries.Keys)
  }

  lemma CoveredTenant(proofs: seq<Proof>, t: Id)
    requires forall p | p in proofs :: p.tenant == t
    ensures forall k | k in Covered(proofs) :: k.tenant == t
  {
    if proofs != [] {
      CoveredTenant(proofs[..|proofs| - 1], t);
    }
  }

  lemma CoveredByOneMore(rows: map<Id, StagedRow>, ts: set<Id>, t: Id)
    requires ts + {t} <= rows.Keys && t !in ts
    requires forall p | p in rows[t].proofs :: p.tenant == t
    ensures CoveredBy(rows, ts + {t}) == CoveredBy(rows, ts) + Covered(rows[t].proofs)
  {
    CoveredTenant(rows[t].proofs, t);
  }

  method CoverRow(before: map<Key, Head>, proofs: seq<Proof>) returns (covered: map<Key, Head>)
    ensures covered == before + Covered(proofs)
  {
    covered := before;
    for i := 0 to |proofs|
      invariant covered == before + Covered(proofs[..i])
    {
      var p := proofs[i];
      covered := covered[Key(p.tenant, p.profile) := p.leaf.next];
      assert proofs[..i + 1][..i] == proofs[..i];
    }
    assert proofs[..|proofs|] == proofs;
  }

  method VerifyRows(rows: map<Id, StagedRow>, entries: map<Id, IndexEntry>, files: set<Artifact>)
    returns (r: Option<(map<Key, Head>, map<Id, Id>)>)
    requires rows.Keys == entries.Keys
    ensures r.Some? <==> forall t | t in entries :: RowMatches(rows[t], t, entries[t], files)
    ensures r.Some? ==> r.value.0 == CoveredBy(rows, entries.Keys)
    ensures r.Some? ==> r.value.1 == map t | t in entries :: rows[t].replay
  {
    var covered: map<Key, Head> := map[];
    var replays: map<Id, Id> := map[];
    var rest := entries.Keys;
    ghost var done: set<Id> := {};
    while rest != {}
      invariant done + rest == entries.Keys && done !! rest
      invariant replays.Keys == done && forall t | t in done :: replays[t] == rows[t].replay
      invariant forall t | t in done :: RowMatches(rows[t], t, entries[t], files)
      invariant covered == CoveredBy(rows, done)
      decreases rest
    {
      var t :| t in rest;
      if !RowMatches(rows[t], t, entries[t], files) {
        return None;
      }
      CoveredByOneMore(rows, done, t);
      covered := CoverRow(covered, rows[t].proofs);
      replays := replays[t := rows[t].replay];
      rest, done := rest - {t}, done + {t};
    }
    assert done == entries.Keys;
    return Some((covered, replays));
  }

  method VerifyInstalled(pl: Plane, instance: Id, epoch: nat, entries: map<Id, IndexEntry>, files: set<Artifact>)
    returns (audit: Option<map<Id, Id>>)
    ensures audit.Some? <==> Installed(pl, instance, epoch, entries, files)
    ensures audit.Some? ==> audit.value == map t | t in entries :: RowsAt(pl, instance, epoch)[t].replay
  {
    var rows := RowsAt(pl, instance, epoch);
    if rows.Keys != entries.Keys {
      return None;
    }
    var installed := ReadHeads(pl, instance);
    if installed.None? {
      return None;
    }
    var read := VerifyRows(rows, entries, files);
    if read.None? || WithHeads(installed.value) != read.value.0 {
      return None;
    }
    return Some(read.value.1);
  }

  // ------------------------------------------- what prepare accepts, commit verifies ----

  lemma {:induction false} CoveredProofs(t: Id, ids: seq<Id>, leaves: Leaves)
    requires forall p | p in ids :: p in leaves
    ensures forall k :: k in Covered(ProofsIn(t, ids, leaves)) <==> k.tenant == t && k.profile in ids
    ensures forall k | k in Covered(ProofsIn(t, ids, leaves)) :: Covered(ProofsIn(t, ids, leaves))[k] == leaves[k.profile].next
  {
    if ids != [] {
      var n := |ids| - 1;
      CoveredProofs(t, ids[..n], leaves);
      assert ProofsIn(t, ids, leaves)[..n] == ProofsIn(t, ids[..n], leaves);
      assert ids == ids[..n] + [ids[n]];
    }
  }

  lemma CoveredLeaves(t: Id, leaves: Leaves)
    ensures forall k :: k in Covered(ProofsOf(t, leaves)) <==> k.tenant == t && k.profile in leaves
    ensures forall k | k in Covered(ProofsOf(t, leaves)) :: Covered(ProofsOf(t, leaves))[k] == leaves[k.profile].next
  {
    CoveredProofs(t, InOrder(leaves.Keys), leaves);
  }

  /** What prepare has checked once `coverage` and `staged` accept a live and a backup plane. */
  ghost predicate Accepted(live: Plane, bk: Plane, instance: Id, epoch: nat, cover: Cover, trusted: set<Id>) {
    && live.profiles.Keys == bk.profiles.Keys
    && Readable(live, instance) && Readable(bk, instance)
    && Coverable(HeadsOf(live, instance), HeadsOf(bk, instance))
    && IsCover(HeadsOf(live, instance), HeadsOf(bk, instance), cover)
    && Staged(live, instance, epoch, cover, trusted)
  }

  /** Nobody's head moves without consent: what prepare accepts has, for every profile with a head,
      a trusted transition of its tenant from this epoch to the next that signs exactly that head
      and the backup's, and signs nothing else. */
  lemma EveryMoveIsSigned(live: Plane, bk: Plane, instance: Id, epoch: nat, cover: Cover, trusted: set<Id>, k: Key)
    requires Accepted(live, bk, instance, epoch, cover, trusted)
    ensures var rows := RowsAt(live, instance, epoch);
            k in Headed(HeadsOf(live, instance)) <==> k.tenant in rows && k.profile in rows[k.tenant].exact.root
    ensures k in Headed(HeadsOf(live, instance)) ==>
              var t := RowsAt(live, instance, epoch)[k.tenant].exact;
              && k.tenant in trusted && t.tenant == k.tenant && t.instance == instance && t.previous == epoch && t.next == epoch + 1
              && k in HeadsOf(bk, instance) && HeadsOf(bk, instance)[k].Some?
              && t.root[k.profile] == Leaf(HeadsOf(live, instance)[k].value, HeadsOf(bk, instance)[k].value)
  {
    hide ProofsOf, RowsAt, HeadsOf, Readable;
    assert k == Key(k.tenant, k.profile);
    assert k.tenant in cover && k.profile in cover[k.tenant] <==> k in Headed(HeadsOf(live, instance));
  }

  /** The derived `mapping_count` column agrees with the signed count in every staged row.
      `staged` never reads the column; `verify_installed` does. */
  predicate CountsAgree(live: Plane, instance: Id, epoch: nat) {
    forall t | t in RowsAt(live, instance, epoch) ::
      RowsAt(live, instance, epoch)[t].count == RowsAt(live, instance, epoch)[t].exact.count
  }

  lemma CoverAt(lh: Heads, bh: Heads, cover: Cover, rows: map<Id, StagedRow>, k: Key)
    requires Coverable(lh, bh) && IsCover(lh, bh, cover) && rows.Keys == cover.Keys
    requires forall t | t in cover :: rows[t].proofs == ProofsOf(t, cover[t])
    ensures k in CoveredBy(rows, cover.Keys) <==> k in WithHeads(bh)
    ensures k in WithHeads(bh) ==> k in CoveredBy(rows, cover.Keys) && CoveredBy(rows, cover.Keys)[k] == WithHeads(bh)[k]
  {
    assert k == Key(k.tenant, k.profile);
    if k.tenant in cover {
      CoveredLeaves(k.tenant, cover[k.tenant]);
      assert k.profile in cover[k.tenant] <==> k in Headed(lh);
    } else {
      assert k !in Headed(lh);
    }
  }

  /** The signed leaves cover exactly the backup's heads. */
  lemma SignedLeavesAreTheBackupHeads(lh: Heads, bh: Heads, cover: Cover, rows: map<Id, StagedRow>)
    requires Coverable(lh, bh) && IsCover(lh, bh, cover) && rows.Keys == cover.Keys
    requires forall t | t in cover :: rows[t].proofs == ProofsOf(t, cover[t])
    ensures CoveredBy(rows, cover.Keys) == WithHeads(bh)
  {
    var a, b := CoveredBy(rows, cover.Keys), WithHeads(bh);
    forall k ensures (k in a <==> k in b) && (k in b ==> a[k] == b[k]) {
      CoverAt(lh, bh, cover, rows, k);
    }
    assert a.Keys == b.Keys;
  }

  lemma FilesHold(pl: Plane, instance: Id, epoch: nat, t: Id)
    requires t in RowsAt(pl, instance, epoch)
    ensures TransitionFile(RowsAt(pl, instance, epoch)[t].exact) in FilesOf(pl, instance, epoch)
    ensures forall p | p in RowsAt(pl, instance, epoch)[t].proofs :: ProofFile(p) in FilesOf(pl, instance, epoch)
  {
  }

  lemma RowsMatch(live: Plane, instance: Id, epoch: nat, cover: Cover, trusted: set<Id>, files: set<Artifact>)
    requires Staged(live, instance, epoch, cover, trusted) && FilesOf(live, instance, epoch) <= files
    ensures (forall t | t in EntriesOf(live, instance, epoch, cover) ::
               RowMatches(RowsAt(live, instance, epoch)[t], t, EntriesOf(live, instance, epoch, cover)[t], files))
       <==> CountsAgree(live, instance, epoch)
  {
    var rows := RowsAt(live, instance, epoch);
    var entries := EntriesOf(live, instance, epoch, cover);
    forall t | t in cover ensures RowMatches(rows[t], t, entries[t], files) <==> rows[t].count == rows[t].exact.count {
      RowOfAccepted(rows[t], instance, t, epoch, cover[t]);
      FilesHold(live, instance, epoch, t);
    }
  }

  /** The central agreement: on everything prepare accepts, `verify_installed` accepts a
      plane with the candidate's rows exactly when the count columns agree. The scratch
      tables are free, so this holds before and after the step-5 transaction. */
  lemma VerifyAgreesWithPrepare(live: Plane, bk: Plane, instance: Id, epoch: nat, cover: Cover, trusted: set<Id>,
                                installed: Plane, files: set<Artifact>)
    requires Accepted(live, bk, instance, epoch, cover, trusted)
    requires installed == Merged(live, bk, epoch + 1).(scratch := installed.scratch)
    requires FilesOf(live, instance, epoch) <= files
    ensures Installed(installed, instance, epoch, EntriesOf(live, instance, epoch, cover), files)
       <==> CountsAgree(live, instance, epoch)
  {
    CandidateRows(live, bk, instance, epoch, cover, trusted, installed);
    CandidateCovers(live, bk, instance, epoch, cover, trusted, installed);
    InstalledByRows(installed, instance, epoch, EntriesOf(live, instance, epoch, cover), files);
    RowsMatch(live, instance, epoch, cover, trusted, files);
  }

  lemma InstalledByRows(pl: Plane, instance: Id, epoch: nat, entries: map<Id, IndexEntry>, files: set<Artifact>)
    requires RowsAt(pl, instance, epoch).Keys == entries.Keys && Readable(pl, instance)
    requires CoveredBy(RowsAt(pl, instance, epoch), entries.Keys) == WithHeads(HeadsOf(pl, instance))
    ensures Installed(pl, instance, epoch, entries, files)
       <==> forall t | t in entries :: RowMatches(RowsAt(pl, instance, epoch)[t], t, entries[t], files)
  {
  }

  lemma SameRows(a: Plane, b: Plane, instance: Id, epoch: nat)
    requires a.transitions == b.transitions
    ensures RowsAt(a, instance, epoch) == RowsAt(b, instance, epoch)
  {
  }

  lemma CandidateHeads(live: Plane, bk: Plane, instance: Id, next: nat, installed: Plane)
    requires live.profiles.Keys == bk.profiles.Keys && Readable(bk, instance)
    requires installed == Merged(live, bk, next).(scratch := installed.scratch)
    ensures Readable(installed, instance) && HeadsOf(installed, instance) == HeadsOf(bk, instance)
  {
    MergeRestoresHeads(live, bk, instance, next);
    SameHeads(Merged(live, bk, next), installed, instance);
  }

  lemma SameProfiles(live: Plane, bk: Plane, instance: Id)
    requires Readable(live, instance) && Readable(bk, instance)
    requires Coverable(HeadsOf(live, instance), HeadsOf(bk, instance))
    ensures live.profiles.Keys == bk.profiles.Keys
  {
    assert HeadsOf(live, instance).Keys == live.profiles.Keys;
  }

  lemma StagedTenants(live: Plane, instance: Id, epoch: nat, cover: Cover, trusted: set<Id>)
    requires Staged(live, instance, epoch, cover, trusted)
    ensures RowsAt(live, instance, epoch).Keys == cover.Keys == EntriesOf(live, instance, epoch, cover).Keys
    ensures forall t | t in cover :: RowsAt(live, instance, epoch)[t].proofs == ProofsOf(t, cover[t])
  {
  }

  lemma CandidateRows(live: Plane, bk: Plane, instance: Id, epoch: nat, cover: Cover, trusted: set<Id>, installed: Plane)
    requires Accepted(live, bk, instance, epoch, cover, trusted)
    requires installed == Merged(live, bk, epoch + 1).(scratch := installed.scratch)
    ensures RowsAt(installed, instance, epoch) == RowsAt(live, instance, epoch)
    ensures RowsAt(live, instance, epoch).Keys == EntriesOf(live, instance, epoch, cover).Keys == cover.Keys
  {
    StagedTenants(live, instance, epoch, cover, trusted);
    SameRows(live, installed, instance, epoch);
  }

  lemma CandidateCovers(live: Plane, bk: Plane, instance: Id, epoch: nat, cover: Cover, trusted: set<Id>, installed: Plane)
    requires Accepted(live, bk, instance, epoch, cover, trusted)
    requires installed == Merged(live, bk, epoch + 1).(scratch := installed.scratch)
    ensures RowsAt(live, instance, epoch).Keys == cover.Keys
    ensures Readable(installed, instance)
    ensures WithHeads(HeadsOf(installed, instance)) == CoveredBy(RowsAt(live, instance, epoch), cover.Keys)
  {
    StagedTenants(live, instance, epoch, cover, trusted);
    CandidateHeads(live, bk, instance, epoch + 1, installed);
    SignedLeavesAreTheBackupHeads(HeadsOf(live, instance), HeadsOf(bk, instance), cover, RowsAt(live, instance, epoch));
  }

  lemma RowOfAccepted(row: StagedRow, instance: Id, t: Id, epoch: nat, leaves: Leaves)
    requires Signs(row, instance, t, epoch, leaves)
    ensures |row.proofs| == |leaves| == row.exact.count
    ensures forall p | p in row.proofs :: p.tenant == t
  {
    assert |InOrder(leaves.Keys)| == |leaves.Keys| == |leaves|;
  }

  lemma SameHeads(a: Plane, b: Plane, instance: Id)
    requires a.profiles == b.profiles && a.snapshots == b.snapshots && Readable(a, instance)
    ensures Readable(b, instance) && HeadsOf(a, instance) == HeadsOf(b, instance)
  {
    forall k | k in b.profiles ensures HeadAt(b, instance, k) == HeadAt(a, instance, k) {}
    assert forall k | k in b.profiles :: HeadAt(b, instance, k).Ok?;
  }

  /** A one-tenant plane: profile 1 at version 1 with head `head`. */
  function Sample(head: Head, fence: nat, staged: map<TransitionKey, StagedRow>): Plane {
    Plane(map[Key(1, 1) := Profile(7, 1, fence)],
          map[SnapKey(5, 1, 1, 1) := Snapshot(head, 2, 7, 9)], map[], staged, map[], {}, 0)
  }

  lemma SampleHeads(head: Head, fence: nat, staged: map<TransitionKey, StagedRow>)
    ensures Readable(Sample(head, fence, staged), 5)
    ensures HeadsOf(Sample(head, fence, staged), 5) == map[Key(1, 1) := Some(head)]
  {
    assert HeadAt(Sample(head, fence, staged), 5, Key(1, 1)) == Ok(Some(head));
  }

  lemma SampleCover(lh: Heads, bh: Heads, cover: Cover)
    requires lh == map[Key(1, 1) := Some(40)] && bh == map[Key(1, 1) := Some(30)]
    requires cover == map[1 := map[1 := Leaf(40, 30)]]
    ensures Coverable(lh, bh) && IsCover(lh, bh, cover)
  {
    assert 1 in cover[1];
  }

  lemma SampleRows(pl: Plane, row: StagedRow)
    requires pl.transitions == map[TransitionKey(5, 1, 0, 1) := row]
    ensures RowsAt(pl, 5, 0) == map[1 := row]
  {
    assert TransitionKey(5, 1, 0, 0 + 1) in pl.transitions;
  }

  /** A staged row whose count column something outside the code has changed passes every check
      of prepare and then fails `verify_installed`. */
  lemma PrepareCanAcceptWhatCommitRefuses() returns (live: Plane, bk: Plane, cover: Cover)
    ensures Accepted(live, bk, 5, 0, cover, {1})
    ensures !Installed(Merged(live, bk, 1), 5, 0, EntriesOf(live, 5, 0, cover), FilesOf(live, 5, 0))
  {
    var leaves: Leaves := map[1 := Leaf(40, 30)];
    var row := StagedRow(Transition(5, 1, 0, 1, 1, leaves, 0), 2, 6, ProofsOf(1, leaves));
    var staged := map[TransitionKey(5, 1, 0, 1) := row];
    live, bk, cover := Sample(40, 3, staged), Sample(30, 2, map[]), map[1 := leaves];
    SampleHeads(40, 3, staged);
    SampleHeads(30, 2, map[]);
    SampleCover(HeadsOf(live, 5), HeadsOf(bk, 5), cover);
    SampleRows(live, row);
    assert Signs(row, 5, 1, 0, leaves);
    assert !CountsAgree(live, 5, 0) by {
      assert RowsAt(live, 5, 0)[1].count != RowsAt(live, 5, 0)[1].exact.count;
    }
    VerifyAgreesWithPrepare(live, bk, 5, 0, cover, {1}, Merged(live, bk, 1), FilesOf(live, 5, 0));
  }
}

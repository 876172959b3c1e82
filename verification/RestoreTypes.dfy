/** The durable objects of an offline restore. A SHA-256 is a free constructor
    over what it hashes (`Sha`), so two values hash alike only if they are equal;
    artifacts are named by their hash and are modelled as a set of contents. */
module RestoreTypes {
  import opened Wrappers

  /** A 16-byte identifier; 0 stands for the all-zero one. */
  type Id = nat
  /** The 32-byte hash of a signed profile head. */
  type Head = nat

  // ---------------------------------------------------------- data plane ----

  datatype Key = Key(tenant: Id, profile: Id)
  datatype Profile = Profile(fleet: Id, version: nat, fence: nat)
  datatype SnapKey = SnapKey(instance: Id, tenant: Id, profile: Id, version: nat)
  datatype Snapshot = Snapshot(head: Head, upload: Id, fleet: Id, id: Id)
  datatype UploadKey = UploadKey(instance: Id, tenant: Id, upload: Id)
  datatype UploadState = Open | Finalizing | Ready | Committed | Aborted | Quarantined
  datatype Upload = Upload(state: UploadState, profile: Id)

  /** A leaf without its key: one profile's old and new signed head. */
  datatype Leaf = Leaf(previous: Head, next: Head)
  /** One tenant's leaves, in profile order in the source, hence a map here. */
  type Leaves = map<Id, Leaf>
  /** One parsed inclusion proof: the leaf it proves, with its key. */
  datatype Proof = Proof(tenant: Id, profile: Id, leaf: Leaf)
  /** The exact signed transition bytes, through the payload they parse to; `root`
      is the leaf set the signed Merkle root commits to, `salt` everything else. */
  datatype Transition = Transition(instance: Id, tenant: Id, previous: nat, next: nat,
                                   count: nat, root: Leaves, salt: nat)
  datatype TransitionKey = TransitionKey(instance: Id, tenant: Id, previous: nat, next: nat)
  /** A row of the transition table with its proof rows in leaf-index order. `count` and `replay` are
      columns beside the exact bytes. */
  datatype StagedRow = StagedRow(exact: Transition, count: nat, replay: Id, proofs: seq<Proof>)

  /** What a succeeded ledger row answers for, as its stored bytes parse. */
  datatype Answer =
    | CommitOf(upload: Id, version: nat, snapshot: Id)
    | PublishOf(profile: Id)
    | UploadOf(upload: Id)
    | Unreadable
    | OtherKind
  datatype Operation = Operation(tenant: Id, succeeded: bool, answer: Answer, superseded: Option<nat>)

  /** The tables the restore moves. `scratch` holds the rows of the tables whose
      restore scope is Cleared, `live` the rest of the control plane. */
  datatype Plane = Plane(
    profiles: map<Key, Profile>,
    snapshots: map<SnapKey, Snapshot>,
    uploads: map<UploadKey, Upload>,
    transitions: map<TransitionKey, StagedRow>,
    ledger: map<nat, Operation>,
    scratch: set<(nat, nat)>,
    live: nat)

  // ------------------------------------------------------ identity, files ----

  datatype Sha = OfRecord(record: Record) | OfDb(db: Db) | OfIndex(index: Index) | OtherSha(n: nat)

  datatype Record = Record(instance: Id, epoch: nat, txn: Id, restoredDb: Sha, transitionSet: Sha, writtenAt: nat)

  /** The `v2_server_state` row; SQLite stores the epoch as a signed integer. */
  datatype Mirror = Mirror(instance: Id, epoch: int, sha: Sha)

  datatype Action = RestorePrepare | RestoreCommit | RestoreAbort | RestoreRetire
  datatype AuditRow = ServerRow(action: Action, txn: Id) | TenantRow(tenant: Id, replay: Id, txn: Id)

  datatype Db = Db(mirror: Option<Mirror>, log: seq<AuditRow>, events: set<AuditRow>, plane: Plane)

  datatype State = Prepared | Terminal
  datatype Manifest = Manifest(state: State, instance: Id, previousEpoch: nat, newEpoch: nat, txn: Id,
                               candidateDb: Sha, transitionSet: Sha, previousRecord: Sha, preparedAt: nat)

  /** An index entry; the transition and proof-set hashes are their preimages. */
  datatype IndexEntry = IndexEntry(exact: Transition, count: nat, proofs: seq<Proof>)
  datatype Index = Index(instance: Id, previousEpoch: nat, newEpoch: nat, txn: Id,
                         backupDb: Sha, liveDb: Sha, entries: map<Id, IndexEntry>)

  /** The content of one file of an artifact directory, each named by its hash. */
  datatype Artifact = TransitionFile(exact: Transition) | ProofFile(proof: Proof) | IndexFile(index: Index)
  /** An artifact directory; `stray` when it holds a name that is not its content's hash. */
  datatype Dir = Dir(files: set<Artifact>, stray: bool)
}

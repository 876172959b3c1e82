/** Leases with fencing tokens, chunked uploads, version-checked commits and ranged downloads of
    one tenant's profiles, with the process killed between the steps of a call.
    Source: server/src/fleet.rs. */
module FleetSync {
  import opened Wrappers
  import opened Bytes
  import opened Streams
  import opened Wire
  import Extremes

  type Id = nat
  type Hash = Bytes -> nat

  datatype Lease = Lease(profile: Id, token: nat, base: nat, expires: nat, released: bool)
  datatype Status = Open | Committed | Aborted
  datatype Session = Session(profile: Id, lease: Id, token: int, target: nat, declared: nat, received: nat, status: Status)
  datatype Manifest = Manifest(base: nat, token: int, hash: nat, size: nat)
  /** A version of a profile: the key of its manifest row and the path of its blob. */
  datatype Version = Version(profile: Id, number: nat)

  /** The rows, and the files beside them: staging files by session, blobs by version. */
  datatype Fleet = Fleet(
    current: map<Id, nat>,
    leases: map<Id, Lease>,
    sessions: map<Id, Session>,
    manifests: map<Version, Manifest>,
    staging: map<Id, Bytes>,
    blobs: map<Version, Bytes>)

  datatype Error =
    | AlreadyLeased | NoSuchLease | LeaseExpired
    | StaleFencingToken(presented: int, live: int)
    | VersionConflict(base: nat, current: nat)
    | SessionNotOpen
    | SizeMismatch(declared: nat, received: nat)
    | ContentHashMismatch
    | ChunkOutOfOrder(expected: nat, got: int)
    | DeclaredSizeExceeded(declared: nat, wouldBe: nat)
    | NoSuchVersion | BlobUnavailable | Database

  /** How a call ends; `Killed` when the process died inside it. */
  datatype Outcome<T> = Done(value: T) | Refused(error: Error) | Killed

  // --------------------------------------------------------------- leases ----

  function Tokens(leases: map<Id, Lease>, profile: Id): set<nat> {
    set l | l in leases && leases[l].profile == profile :: leases[l].token
  }

  /** The highest token a profile ever issued, released leases included; 0 for none. */
  function MaxToken(leases: map<Id, Lease>, profile: Id): (m: nat)
    ensures forall l | l in leases && leases[l].profile == profile :: leases[l].token <= m
    ensures m == 0 || exists l :: l in leases && leases[l].profile == profile && leases[l].token == m
  {
    var ts := Tokens(leases, profile);
    assert forall l | l in leases && leases[l].profile == profile :: leases[l].token in ts;
    if ts == {} then 0 else Extremes.Greatest(ts)
  }

  predicate Live(leases: map<Id, Lease>, l: Id, profile: Id) {
    l in leases && leases[l].profile == profile && !leases[l].released
  }

  /** A duplicate lease id is a database error, a live lease of the profile the refusal of its own. */
  function Acquire(f: Fleet, profile: Id, lease: Id, expires: nat): Result<Fleet, Error> {
    if profile !in f.current then Err(Database)
    else
      var token := MaxToken(f.leases, profile) + 1;
      if token > MAX_WIRE_INT || lease in f.leases then Err(Database)
      else if exists l :: l in f.leases && Live(f.leases, l, profile) then Err(AlreadyLeased)
      else Ok(f.(leases := f.leases[lease := Lease(profile, token, f.current[profile], expires, false)]))
  }

  function LeaseFault(f: Fleet, profile: Id, lease: Id, token: int, now: nat): Option<Error> {
    if !Live(f.leases, lease, profile) then Some(NoSuchLease)
    else if f.leases[lease].token != token then Some(StaleFencingToken(token, f.leases[lease].token))
    else if now >= f.leases[lease].expires then Some(LeaseExpired)
    else None
  }

  function Release(f: Fleet, lease: Id): Fleet {
    if lease in f.leases then f.(leases := f.leases[lease := f.leases[lease].(released := true)]) else f
  }

  // -------------------------------------------------------------- uploads ----

  /** The row goes in first; a kill before the file is created leaves whatever was there. */
  function OpenUpload(f: Fleet, session: Id, s: Session, killed: bool): Result<Fleet, Error> {
    if session in f.sessions || s.profile !in f.current || s.token < 0 then Err(Database)
    else
      var rowed := f.(sessions := f.sessions[session := s.(received := 0, status := Open)]);
      Ok(if killed then rowed else rowed.(staging := f.staging[session := []]))
  }

  function AppendFault(f: Fleet, session: Id, offset: int, bytes: Bytes): (fault: Option<Error>)
    ensures fault.None? ==> session in f.sessions && session in f.staging
  {
    if session !in f.sessions || f.sessions[session].status != Open then Some(SessionNotOpen)
    else
      var s := f.sessions[session];
      if offset != s.received then Some(ChunkOutOfOrder(s.received, offset))
      else if s.received + |bytes| > s.declared then Some(DeclaredSizeExceeded(s.declared, s.received + |bytes|))
      else if session !in f.staging then Some(BlobUnavailable)
      else None
  }

  /** A killed append has written some prefix of the chunk and not the row. */
  function Append(f: Fleet, session: Id, bytes: Bytes, killed: Option<nat>): Fleet
    requires session in f.sessions && session in f.staging && (killed.Some? ==> killed.value <= |bytes|)
  {
    if killed.Some? then f.(staging := f.staging[session := f.staging[session] + bytes[..killed.value]])
    else f.(staging := f.staging[session := f.staging[session] + bytes],
            sessions := f.sessions[session := f.sessions[session].(received := f.sessions[session].received + |bytes|)])
  }

  /** Everything that can refuse a commit before a file is touched, in the code's order. */
  function CommitFault(f: Fleet, hash: Hash, profile: Id, session: Id, base: nat, digest: nat, now: nat): Option<Error> {
    if session !in f.sessions || f.sessions[session].status != Open then Some(SessionNotOpen)
    else
      var s := f.sessions[session];
      if s.received != s.declared then Some(SizeMismatch(s.declared, s.received))
      else
        var lease := LeaseFault(f, profile, s.lease, s.token, now);
        if lease.Some? then lease
        else if session !in f.staging then Some(BlobUnavailable)
        else if hash(f.staging[session]) != digest then Some(ContentHashMismatch)
        else if profile !in f.current then Some(NoSuchVersion)
        else if f.current[profile] != base then Some(VersionConflict(base, f.current[profile]))
        else None
  }

  datatype CommitKill = Never | AfterRemove | AfterRename

  function Target(f: Fleet, profile: Id, session: Id): Version
    requires session in f.sessions
  {
    Version(profile, f.sessions[session].target)
  }

  /** The files after a commit that passed its checks: the target's old blob is removed first. */
  function Promoted(f: Fleet, profile: Id, session: Id, kill: CommitKill): Fleet
    requires session in f.sessions && session in f.staging
  {
    var v := Target(f, profile, session);
    if kill == AfterRemove then f.(blobs := f.blobs - {v})
    else f.(blobs := f.blobs[v := f.staging[session]], staging := f.staging - {session})
  }

  /** The rows of the commit transaction, unless the version is already taken. */
  function Commit(f: Fleet, profile: Id, session: Id, base: nat, digest: nat, kill: CommitKill): Fleet
    requires session in f.sessions && session in f.staging
  {
    var files, v, s := Promoted(f, profile, session, kill), Target(f, profile, session), f.sessions[session];
    if kill != Never || v in f.manifests then files
    else files.(manifests := f.manifests[v := Manifest(base, s.token, digest, s.declared)],
                current := f.current[profile := s.target],
                sessions := f.sessions[session := s.(status := Committed)])
  }

  /** The staging file goes first; a kill leaves the row open without it. */
  function Abort(f: Fleet, session: Id, killed: bool): Fleet {
    if session in f.sessions && f.sessions[session].status == Open then
      var gone := f.(staging := f.staging - {session});
      if killed then gone else gone.(sessions := f.sessions[session := f.sessions[session].(status := Aborted)])
    else f
  }

  // ---------------------------------------------------------------- steps ----

  /** Every call with its arguments, and where it was killed. */
  datatype Step =
    | AcquireStep(profile: Id, lease: Id, expires: nat)
    | ReleaseStep(lease: Id)
    | OpenStep(session: Id, row: Session, killed: bool)
    | AppendStep(session: Id, offset: int, bytes: Bytes, cut: Option<nat>)
    | CommitStep(profile: Id, session: Id, base: nat, digest: nat, now: nat, kill: CommitKill)
    | AbortStep(session: Id, killed: bool)

  function Apply(f: Fleet, hash: Hash, w: Step): Fleet {
    match w
    case AcquireStep(profile, lease, expires) =>
      var r := Acquire(f, profile, lease, expires);
      if r.Ok? then r.value else f
    case ReleaseStep(lease) => Release(f, lease)
    case OpenStep(session, s, killed) =>
      var r := OpenUpload(f, session, s, killed);
      if r.Ok? then r.value else f
    case AppendStep(session, offset, bytes, cut) =>
      if AppendFault(f, session, offset, bytes).Some? || (cut.Some? && cut.value > |bytes|) then f
      else Append(f, session, bytes, cut)
    case CommitStep(profile, session, base, digest, now, kill) =>
      if CommitFault(f, hash, profile, session, base, digest, now).Some? then f
      else Commit(f, profile, session, base, digest, kill)
    case AbortStep(session, killed) => Abort(f, session, killed)
  }

  function After(f: Fleet, hash: Hash, ws: seq<Step>): Fleet {
    if ws == [] then f else Apply(After(f, hash, ws[..|ws| - 1]), hash, ws[|ws| - 1])
  }

  // -------------------------------------------------------------- history ----

  datatype Grant = Grant(profile: Id, lease: Id, token: nat)
  datatype Published = Published(profile: Id, number: nat, token: int)

  predicate Granted(f: Fleet, w: Step)
    ensures Granted(f, w) ==> w.AcquireStep?
  {
    w.AcquireStep? && Acquire(f, w.profile, w.lease, w.expires).Ok?
  }

  /** The commit's transaction went through. */
  predicate Publishes(f: Fleet, hash: Hash, w: Step)
    ensures Publishes(f, hash, w) ==> w.CommitStep? && w.session in f.sessions
  {
    && w.CommitStep? && w.kill == Never
    && CommitFault(f, hash, w.profile, w.session, w.base, w.digest, w.now).None?
    && Target(f, w.profile, w.session) !in f.manifests
  }

  function GrantOf(f: Fleet, w: Step): seq<Grant> {
    if Granted(f, w) then [Grant(w.profile, w.lease, MaxToken(f.leases, w.profile) + 1)] else []
  }

  function PublishedOf(f: Fleet, hash: Hash, w: Step): seq<Published> {
    if Publishes(f, hash, w) then [Published(w.profile, f.sessions[w.session].target, f.sessions[w.session].token)] else []
  }

  /** The leases granted over a run, in order. */
  function Grants(f: Fleet, hash: Hash, ws: seq<Step>): seq<Grant> {
    if ws == [] then []
    else Grants(f, hash, ws[..|ws| - 1]) + GrantOf(After(f, hash, ws[..|ws| - 1]), ws[|ws| - 1])
  }

  /** The versions published over a run, in order. */
  function Commits(f: Fleet, hash: Hash, ws: seq<Step>): seq<Published> {
    if ws == [] then []
    else Commits(f, hash, ws[..|ws| - 1]) + PublishedOf(After(f, hash, ws[..|ws| - 1]), hash, ws[|ws| - 1])
  }

  // -------------------------------------------------------------- fencing ----

  /** At most one unreleased lease a profile, and it holds the highest token. */
  ghost predicate Fenced(f: Fleet) {
    forall l, other | l in f.leases && other in f.leases && f.leases[other].profile == f.leases[l].profile ::
      !f.leases[l].released && other != l ==> f.leases[other].released && f.leases[other].token < f.leases[l].token
  }

  lemma AcquireFences(f: Fleet, profile: Id, lease: Id, expires: nat)
    requires Fenced(f) && Acquire(f, profile, lease, expires).Ok?
    ensures var g := Acquire(f, profile, lease, expires).value;
            Fenced(g) && lease !in f.leases && lease in g.leases && g.leases - {lease} == f.leases
            && g.leases[lease].profile == profile && g.leases[lease].token == MaxToken(f.leases, profile) + 1
  {
  }

  lemma ReleaseFences(f: Fleet, lease: Id)
    requires Fenced(f)
    ensures Fenced(Release(f, lease))
  {
  }

  /** No lease row ever goes or changes its profile or token. */
  predicate KeepsTokens(before: map<Id, Lease>, after: map<Id, Lease>) {
    forall l | l in before :: l in after && after[l].profile == before[l].profile && after[l].token == before[l].token
  }

  lemma LeaseRows(f: Fleet, hash: Hash, w: Step)
    ensures w.AcquireStep? ==> (Granted(f, w) ==> Acquire(f, w.profile, w.lease, w.expires) == Ok(Apply(f, hash, w)))
    ensures w.AcquireStep? && !Granted(f, w) ==> Apply(f, hash, w) == f
    ensures w.ReleaseStep? ==> Apply(f, hash, w) == Release(f, w.lease)
    ensures !w.AcquireStep? && !w.ReleaseStep? ==> Apply(f, hash, w).leases == f.leases
  {
    hide CommitFault, AppendFault, Acquire;
  }

  lemma FencedStep(f: Fleet, hash: Hash, w: Step)
    requires Fenced(f)
    ensures Fenced(Apply(f, hash, w)) && KeepsTokens(f.leases, Apply(f, hash, w).leases)
    ensures Granted(f, w) ==> MaxToken(Apply(f, hash, w).leases, w.profile) >= MaxToken(f.leases, w.profile) + 1
  {
    hide Apply, Acquire, MaxToken;
    LeaseRows(f, hash, w);
    if Granted(f, w) {
      AcquireFences(f, w.profile, w.lease, w.expires);
    } else if w.ReleaseStep? {
      ReleaseFences(f, w.lease);
    }
  }

  lemma MaxTokenGrows(before: map<Id, Lease>, after: map<Id, Lease>, profile: Id)
    requires KeepsTokens(before, after)
    ensures MaxToken(before, profile) <= MaxToken(after, profile)
  {
    if MaxToken(before, profile) != 0 {
      var l :| l in before && before[l].profile == profile && before[l].token == MaxToken(before, profile);
      assert l in after;
    }
  }

  /** A published version carries the highest token its profile had issued by then. */
  lemma PublishesWithTheNewestToken(f: Fleet, hash: Hash, w: Step)
    requires Fenced(f) && Publishes(f, hash, w)
    ensures f.sessions[w.session].token == MaxToken(f.leases, w.profile)
  {
    var l := f.sessions[w.session].lease;
    assert Live(f.leases, l, w.profile);
    var m :| m in f.leases && f.leases[m].profile == w.profile && f.leases[m].token == MaxToken(f.leases, w.profile);
    assert m == l || f.leases[m].token < f.leases[l].token;
  }

  /** No token of the run so far is above the highest its profile's leases hold. */
  ghost predicate TokensBelow(leases: map<Id, Lease>, grants: seq<Grant>, commits: seq<Published>) {
    && (forall i | 0 <= i < |grants| :: grants[i].token <= MaxToken(leases, grants[i].profile))
    && (forall i | 0 <= i < |commits| :: commits[i].token <= MaxToken(leases, commits[i].profile))
  }

  ghost predicate Increasing(g: seq<Grant>) {
    forall i, j | 0 <= i < j < |g| && g[i].profile == g[j].profile :: g[i].token < g[j].token
  }

  ghost predicate NonDecreasing(c: seq<Published>) {
    forall i, j | 0 <= i < j < |c| && c[i].profile == c[j].profile :: c[i].token <= c[j].token
  }

  /** One more call of a run: what it grants is above everything so far, what it publishes not below. */
  lemma OneMore(f: Fleet, hash: Hash, w: Step, g: seq<Grant>, c: seq<Published>)
    requires Fenced(f) && TokensBelow(f.leases, g, c) && Increasing(g) && NonDecreasing(c)
    ensures Increasing(g + GrantOf(f, w)) && NonDecreasing(c + PublishedOf(f, hash, w))
    ensures TokensBelow(Apply(f, hash, w).leases, g + GrantOf(f, w), c + PublishedOf(f, hash, w))
  {
    hide Apply, Granted, Publishes, MaxToken, Fenced;
    var leases := Apply(f, hash, w).leases;
    FencedStep(f, hash, w);
    forall p ensures MaxToken(f.leases, p) <= MaxToken(leases, p) {
      MaxTokenGrows(f.leases, leases, p);
    }
    if Publishes(f, hash, w) {
      PublishesWithTheNewestToken(f, hash, w);
    }
  }

  /** Over every run, killed anywhere: one live lease a profile; tokens strictly increase in
      acquisition order, released leases included; and published versions carry non-decreasing
      tokens, so a superseded holder never publishes after its successor did. */
  lemma {:induction false} FencingHolds(f: Fleet, hash: Hash, ws: seq<Step>)
    requires Fenced(f)
    ensures Fenced(After(f, hash, ws))
    ensures TokensBelow(After(f, hash, ws).leases, Grants(f, hash, ws), Commits(f, hash, ws))
    ensures Increasing(Grants(f, hash, ws)) && NonDecreasing(Commits(f, hash, ws))
    decreases |ws|
  {
    hide Apply, GrantOf, PublishedOf, Fenced;
    if ws != [] {
      var n := |ws| - 1;
      FencingHolds(f, hash, ws[..n]);
      FencedStep(After(f, hash, ws[..n]), hash, ws[n]);
      OneMore(After(f, hash, ws[..n]), hash, ws[n], Grants(f, hash, ws[..n]), Commits(f, hash, ws[..n]));
    }
  }

  // ------------------------------------------------------ versions, blobs ----

  /** Every committed version's blob still hashes to its manifest. */
  ghost predicate BlobsMatch(f: Fleet, hash: Hash) {
    forall v | v in f.manifests :: v in f.blobs && hash(f.blobs[v]) == f.manifests[v].hash
  }

  /** A profile's manifests are the versions 1 to the current one, each based on the one before. */
  ghost predicate Chained(f: Fleet) {
    && (forall v | v in f.manifests :: v.profile in f.current)
    && (forall p, n: nat | p in f.current :: Version(p, n) in f.manifests <==> 1 <= n <= f.current[p])
    && (forall v | v in f.manifests :: f.manifests[v].base + 1 == v.number)
  }

  /** The commit passes every check made before a file is touched. */
  predicate Passes(f: Fleet, hash: Hash, w: Step)
    ensures Passes(f, hash, w) ==> w.CommitStep? && w.session in f.sessions && w.session in f.staging
  {
    w.CommitStep? && CommitFault(f, hash, w.profile, w.session, w.base, w.digest, w.now).None?
  }

  /** The rule the callers follow: a commit that passes its checks is for the version after its base. */
  predicate FollowsTarget(f: Fleet, hash: Hash, w: Step) {
    Passes(f, hash, w) ==> f.sessions[w.session].target == w.base + 1
  }

  /** Exactly when a commit, killed or not, leaves the committed versions intact. The target
      comes from the client, and nothing checks that its version is free. */
  lemma CommitKeepsBlobs(f: Fleet, hash: Hash, profile: Id, session: Id, base: nat, digest: nat, now: nat, kill: CommitKill)
    requires BlobsMatch(f, hash) && CommitFault(f, hash, profile, session, base, digest, now).None?
    ensures var v := Target(f, profile, session);
            BlobsMatch(Commit(f, profile, session, base, digest, kill), hash)
            <==> (v in f.manifests ==> kill != AfterRemove && f.manifests[v].hash == digest)
  {
    var v := Target(f, profile, session);
    var g := Commit(f, profile, session, base, digest, kill);
    if v in f.manifests && (kill == AfterRemove || f.manifests[v].hash != digest) {
      assert v in g.manifests && (v !in g.blobs || hash(g.blobs[v]) != g.manifests[v].hash);
    }
  }

  /** A lease holder that opens a session for a version already committed is refused only by the
      manifest's primary key, after the old blob was replaced: version 1 no longer hashes to its
      manifest. */
  lemma ACommitCanReplaceAnOldBlob(hash: Hash) returns (f: Fleet, w: Step)
    requires hash([1]) != hash([2])
    ensures Fenced(f) && Chained(f) && BlobsMatch(f, hash) && w.CommitStep? && w.kill == Never
    ensures !Publishes(f, hash, w) && !BlobsMatch(Apply(f, hash, w), hash)
  {
    var one := Version(7, 1);
    f := Fleet(map[7 := 1], map[5 := Lease(7, 2, 1, 10, false)], map[3 := Session(7, 5, 2, 1, 1, 1, Open)],
               map[one := Manifest(0, 1, hash([1]), 1)], map[3 := [2]], map[one := [1]]);
    w := CommitStep(7, 3, 1, hash([2]), 0, Never);
    var g := Apply(f, hash, w);
    assert one in g.manifests && hash(g.blobs[one]) != g.manifests[one].hash;
  }

  lemma ChainedStep(f: Fleet, hash: Hash, w: Step)
    requires Chained(f) && BlobsMatch(f, hash) && FollowsTarget(f, hash, w)
    ensures Chained(Apply(f, hash, w)) && BlobsMatch(Apply(f, hash, w), hash)
  {
    if w.CommitStep? && CommitFault(f, hash, w.profile, w.session, w.base, w.digest, w.now).None? {
      CommitKeepsBlobs(f, hash, w.profile, w.session, w.base, w.digest, w.now, w.kill);
      CommitChains(f, w.profile, w.session, w.base, w.digest, w.kill);
    } else {
      OtherSteps(f, hash, w);
    }
  }

  lemma OtherSteps(f: Fleet, hash: Hash, w: Step)
    requires w.CommitStep? ==> CommitFault(f, hash, w.profile, w.session, w.base, w.digest, w.now).Some?
    ensures var g := Apply(f, hash, w); g.manifests == f.manifests && g.current == f.current && g.blobs == f.blobs
  {
    hide CommitFault, AppendFault, Acquire, OpenUpload;
    if w.AcquireStep? && Acquire(f, w.profile, w.lease, w.expires).Ok? {
      AcquireAddsALease(f, w);
    } else if w.OpenStep? && OpenUpload(f, w.session, w.row, w.killed).Ok? {
      OpenAddsASession(f, w);
    }
  }

  lemma AcquireAddsALease(f: Fleet, w: Step)
    requires w.AcquireStep? && Acquire(f, w.profile, w.lease, w.expires).Ok?
    ensures var g := Acquire(f, w.profile, w.lease, w.expires).value; g == f.(leases := g.leases)
  {
    hide MaxToken;
  }

  lemma OpenAddsASession(f: Fleet, w: Step)
    requires w.OpenStep? && OpenUpload(f, w.session, w.row, w.killed).Ok?
    ensures var g := OpenUpload(f, w.session, w.row, w.killed).value;
            && g == f.(sessions := g.sessions, staging := g.staging) && w.session !in f.sessions
            && (forall s | s in f.sessions :: s in g.sessions && (s in g.staging <==> s in f.staging))
  {
  }

  /** Exactly when a commit that passed its checks keeps the chain: it is for the version after its
      base, or nothing is published, because it is killed or its version is taken. */
  lemma CommitChains(f: Fleet, profile: Id, session: Id, base: nat, digest: nat, kill: CommitKill)
    requires Chained(f) && session in f.sessions && session in f.staging
    requires profile in f.current && f.current[profile] == base
    ensures var target := f.sessions[session].target;
            Chained(Commit(f, profile, session, base, digest, kill)) <==> kill != Never || 1 <= target <= base + 1
    ensures f.sessions[session].target == base + 1 ==> Target(f, profile, session) !in f.manifests
  {
    var v := Target(f, profile, session);
    var g := Commit(f, profile, session, base, digest, kill);
    assert v in f.manifests <==> 1 <= v.number <= base;
    if kill == Never && !(1 <= v.number <= base + 1) {
      assert v in g.manifests && (v.number == 0 || g.manifests[v].base + 1 != v.number);
      assert Version(profile, v.number) == v;
    }
  }

  ghost predicate RunFollowsTarget(f: Fleet, hash: Hash, ws: seq<Step>) {
    forall i | 0 <= i < |ws| :: FollowsTarget(After(f, hash, ws[..i]), hash, ws[i])
  }

  /** Over every run of calls that follow the target rule, killed anywhere, each profile's
      versions stay one chain and every committed blob still hashes to its manifest. */
  lemma {:induction false} VersionsStayChained(f: Fleet, hash: Hash, ws: seq<Step>)
    requires Chained(f) && BlobsMatch(f, hash) && RunFollowsTarget(f, hash, ws)
    ensures Chained(After(f, hash, ws)) && BlobsMatch(After(f, hash, ws), hash)
    decreases |ws|
  {
    if ws != [] {
      var n := |ws| - 1;
      assert forall i | 0 <= i < n :: ws[..n][..i] == ws[..i];
      assert FollowsTarget(After(f, hash, ws[..n]), hash, ws[n]);
      VersionsStayChained(f, hash, ws[..n]);
      ChainedStep(After(f, hash, ws[..n]), hash, ws[n]);
    }
  }

  // ------------------------------------------------------- received bytes ----

  /** No session claims more than it declared, nor more than its staging file holds. */
  ghost predicate ClaimsHeld(f: Fleet) {
    forall s | s in f.sessions ::
      && f.sessions[s].received <= f.sessions[s].declared
      && (f.sessions[s].status == Open && s in f.staging ==> f.sessions[s].received <= |f.staging[s]|)
  }

  /** Without kills the claim is exact. */
  ghost predicate ClaimsExact(f: Fleet) {
    forall s | s in f.sessions && f.sessions[s].status == Open :: s in f.staging && f.sessions[s].received == |f.staging[s]|
  }

  predicate WasKilled(w: Step) {
    match w
    case OpenStep(_, _, killed) => killed
    case AppendStep(_, _, _, cut) => cut.Some?
    case CommitStep(_, _, _, _, _, kill) => kill != Never
    case AbortStep(_, killed) => killed
    case _ => false
  }

  lemma ClaimsStep(f: Fleet, hash: Hash, w: Step)
    requires ClaimsHeld(f)
    ensures ClaimsHeld(Apply(f, hash, w))
  {
    hide CommitFault, AppendFault, MaxToken, Append, Commit;
    if w.CommitStep? && CommitFault(f, hash, w.profile, w.session, w.base, w.digest, w.now).None? {
      CommitClaims(f, hash, w);
    } else if w.AppendStep? && AppendFault(f, w.session, w.offset, w.bytes).None? && (w.cut.Some? ==> w.cut.value <= |w.bytes|) {
      AppendClaims(f, w);
    }
  }

  lemma AppendClaims(f: Fleet, w: Step)
    requires ClaimsHeld(f) && w.AppendStep? && AppendFault(f, w.session, w.offset, w.bytes).None?
    requires w.cut.Some? ==> w.cut.value <= |w.bytes|
    ensures ClaimsHeld(Append(f, w.session, w.bytes, w.cut))
  {
  }

  lemma CommitClaims(f: Fleet, hash: Hash, w: Step)
    requires ClaimsHeld(f) && w.CommitStep?
    requires CommitFault(f, hash, w.profile, w.session, w.base, w.digest, w.now).None?
    ensures ClaimsHeld(Commit(f, w.profile, w.session, w.base, w.digest, w.kill))
  {
  }

  /** A commit refused by the manifest's primary key has moved the staging file away: the one way
      an unkilled call leaves an open session without its bytes. */
  lemma ExactStep(f: Fleet, hash: Hash, w: Step)
    requires ClaimsExact(f) && !WasKilled(w)
    ensures ClaimsExact(Apply(f, hash, w)) <==>
            !(w.CommitStep? && CommitFault(f, hash, w.profile, w.session, w.base, w.digest, w.now).None?
              && Target(f, w.profile, w.session) in f.manifests)
  {
    var g := Apply(f, hash, w);
    if w.CommitStep? && CommitFault(f, hash, w.profile, w.session, w.base, w.digest, w.now).None?
       && Target(f, w.profile, w.session) in f.manifests {
      assert w.session in g.sessions && w.session !in g.staging;
    }
  }

  lemma {:induction false} ClaimsStayHeld(f: Fleet, hash: Hash, ws: seq<Step>)
    requires ClaimsHeld(f)
    ensures ClaimsHeld(After(f, hash, ws))
    decreases |ws|
  {
    if ws != [] {
      ClaimsStayHeld(f, hash, ws[..|ws| - 1]);
      ClaimsStep(After(f, hash, ws[..|ws| - 1]), hash, ws[|ws| - 1]);
    }
  }

  /** Over every run of unkilled calls that follow the target rule the claim stays exact. */
  lemma {:induction false} ClaimsStayExact(f: Fleet, hash: Hash, ws: seq<Step>)
    requires ClaimsExact(f) && Chained(f) && BlobsMatch(f, hash) && RunFollowsTarget(f, hash, ws)
    requires forall i | 0 <= i < |ws| :: !WasKilled(ws[i])
    ensures ClaimsExact(After(f, hash, ws))
    decreases |ws|
  {
    if ws != [] {
      var n := |ws| - 1;
      assert forall i | 0 <= i < n :: ws[..n][..i] == ws[..i];
      assert RunFollowsTarget(f, hash, ws[..n]);
      VersionsStayChained(f, hash, ws[..n]);
      ClaimsStayExact(f, hash, ws[..n]);
      var before, w := After(f, hash, ws[..n]), ws[n];
      assert FollowsTarget(before, hash, w);
      if w.CommitStep? && CommitFault(before, hash, w.profile, w.session, w.base, w.digest, w.now).None? {
        TargetIsFree(before, hash, w);
      }
      ExactStep(before, hash, w);
    }
  }

  lemma TargetIsFree(f: Fleet, hash: Hash, w: Step)
    requires Chained(f) && FollowsTarget(f, hash, w) && w.CommitStep?
             && CommitFault(f, hash, w.profile, w.session, w.base, w.digest, w.now).None?
    ensures Target(f, w.profile, w.session) !in f.manifests
  {
  }

  // ------------------------------------------------------------- download ----

  ghost predicate CollisionFree(hash: Hash) {
    forall a, b :: hash(a) == hash(b) ==> a == b
  }

  /** Of a file, the bytes from `offset`, at most `len` of them. */
  function Range(content: Bytes, offset: nat, len: nat): Bytes {
    if |content| <= offset then []
    else if |content| <= offset + len then content[offset..]
    else content[offset..offset + len]
  }

  /** `read_range`: for every schedule of short reads. */
  method ReadRange(content: Bytes, offset: nat, len: nat) returns (r: Bytes)
    ensures r == Range(content, offset, len)
  {
    var input := new Reader(if offset <= |content| then content[offset..] else []);
    var buf := new Byte[len];
    var filled, _ := Fill(input, buf);
    r := buf[..filled];
  }

  /** The caller's loop, with any positive length a turn, until it has the recorded size or the
      file has no more. */
  method Download(content: Bytes, size: nat, step: nat -> nat) returns (r: Bytes)
    requires forall i :: step(i) > 0
    ensures r == Range(content, 0, size)
  {
    r := [];
    while |r| < size
      invariant |r| <= size && |r| <= |content| && r == content[..|r|]
    {
      var left := size - |r|;
      var part := ReadRange(content, |r|, if step(|r|) < left then step(|r|) else left);
      if part == [] {
        break;
      }
      r := r + part;
    }
  }

  /** The row and the file a download of a version is served from; `None` means the current one. */
  function Resolve(f: Fleet, profile: Id, number: Option<nat>): Result<(Version, Manifest), Error> {
    if number.None? && profile !in f.current then Err(NoSuchVersion)
    else
      var v := Version(profile, if number.Some? then number.value else f.current[profile]);
      if v in f.manifests then Ok((v, f.manifests[v])) else Err(NoSuchVersion)
  }

  /** Every committed blob has the size its manifest records. */
  ghost predicate SizesMatch(f: Fleet) {
    forall v | v in f.manifests :: v in f.blobs && |f.blobs[v]| == f.manifests[v].size
  }

  lemma CommitKeepsSizes(f: Fleet, hash: Hash, w: Step)
    requires SizesMatch(f) && ClaimsExact(f) && Passes(f, hash, w) && w.kill == Never
    requires Target(f, w.profile, w.session) !in f.manifests
    ensures SizesMatch(Apply(f, hash, w))
  {
  }

  /** Over every run of unkilled calls that follow the target rule sizes and claims stay exact. */
  lemma {:induction false} SizesStayExact(f: Fleet, hash: Hash, ws: seq<Step>)
    requires SizesMatch(f) && ClaimsExact(f) && Chained(f) && BlobsMatch(f, hash) && RunFollowsTarget(f, hash, ws)
    requires forall i | 0 <= i < |ws| :: !WasKilled(ws[i])
    ensures SizesMatch(After(f, hash, ws))
    decreases |ws|
  {
    if ws != [] {
      hide Apply, Chained, BlobsMatch, ClaimsExact, SizesMatch, Passes;
      var n := |ws| - 1;
      assert forall i | 0 <= i < n :: ws[..n][..i] == ws[..i];
      assert RunFollowsTarget(f, hash, ws[..n]);
      SizesStayExact(f, hash, ws[..n]);
      VersionsStayChained(f, hash, ws[..n]);
      ClaimsStayExact(f, hash, ws[..n]);
      StepKeepsSizes(After(f, hash, ws[..n]), hash, ws[n]);
    }
  }

  lemma StepKeepsSizes(f: Fleet, hash: Hash, w: Step)
    requires SizesMatch(f) && ClaimsExact(f) && Chained(f) && FollowsTarget(f, hash, w) && !WasKilled(w)
    ensures SizesMatch(Apply(f, hash, w))
  {
    hide Apply, CommitFault;
    if Passes(f, hash, w) {
      TargetIsFree(f, hash, w);
      CommitKeepsSizes(f, hash, w);
    } else {
      OtherSteps(f, hash, w);
    }
  }

  /** Committed with the hash and the size of a payload, a version downloads as exactly that
      payload after any run of calls, killed ones included, that follow the target rule. */
  lemma ServesThePayload(f: Fleet, hash: Hash, ws: seq<Step>, v: Version, payload: Bytes)
    requires Chained(f) && BlobsMatch(f, hash) && CollisionFree(hash) && RunFollowsTarget(f, hash, ws)
    requires var g := After(f, hash, ws); v in g.manifests && g.manifests[v].hash == hash(payload)
    ensures var g := After(f, hash, ws);
            && Resolve(g, v.profile, Some(v.number)) == Ok((v, g.manifests[v])) && v in g.blobs && g.blobs[v] == payload
            && (Range(g.blobs[v], 0, g.manifests[v].size) == payload <==> g.manifests[v].size >= |payload|)
  {
    VersionsStayChained(f, hash, ws);
    var g := After(f, hash, ws);
    if g.manifests[v].size < |payload| {
      assert |Range(payload, 0, g.manifests[v].size)| < |payload|;
    }
  }

  /** Without kills the recorded size is the payload's. */
  lemma UnkilledSizeIsThePayloads(f: Fleet, hash: Hash, ws: seq<Step>, v: Version, payload: Bytes)
    requires SizesMatch(f) && ClaimsExact(f) && Chained(f) && BlobsMatch(f, hash) && CollisionFree(hash)
    requires RunFollowsTarget(f, hash, ws) && forall i | 0 <= i < |ws| :: !WasKilled(ws[i])
    requires var g := After(f, hash, ws); v in g.manifests && g.manifests[v].hash == hash(payload)
    ensures After(f, hash, ws).manifests[v].size == |payload|
  {
    hide Chained, BlobsMatch, ClaimsExact;
    SizesStayExact(f, hash, ws);
    ServesThePayload(f, hash, ws, v, payload);
  }

  // ---------------------------------------------------------------- retries ----

  /** A session whose staging file is gone, whichever call took it, can never publish again. */
  lemma {:induction false} GoneIsGone(f: Fleet, hash: Hash, ws: seq<Step>, session: Id)
    requires session in f.sessions && session !in f.staging
    ensures var g := After(f, hash, ws); session in g.sessions && session !in g.staging
    decreases |ws|
  {
    if ws != [] {
      GoneIsGone(f, hash, ws[..|ws| - 1], session);
      StaysGone(After(f, hash, ws[..|ws| - 1]), hash, ws[|ws| - 1], session);
    }
  }

  lemma StaysGone(f: Fleet, hash: Hash, w: Step, session: Id)
    requires session in f.sessions && session !in f.staging
    ensures session in Apply(f, hash, w).sessions && session !in Apply(f, hash, w).staging
  {
    hide CommitFault, Acquire, OpenUpload;
    if w.AcquireStep? && Acquire(f, w.profile, w.lease, w.expires).Ok? {
      AcquireAddsALease(f, w);
    } else if w.OpenStep? && OpenUpload(f, w.session, w.row, w.killed).Ok? {
      OpenAddsASession(f, w);
    } else if Passes(f, hash, w) {
      CommitMovesItsOwn(f, w);
    }
    hide Append, Commit;
  }

  lemma CommitMovesItsOwn(f: Fleet, w: Step)
    requires w.CommitStep? && w.session in f.sessions && w.session in f.staging
    ensures var g := Commit(f, w.profile, w.session, w.base, w.digest, w.kill);
            forall s | s in f.sessions && s !in f.staging :: s in g.sessions && s !in g.staging
  {
  }

  lemma GoneNeverPublishes(f: Fleet, hash: Hash, ws: seq<Step>, w: Step)
    requires w.CommitStep? && w.session in f.sessions && w.session !in f.staging
    ensures !Publishes(After(f, hash, ws), hash, w)
  {
    GoneIsGone(f, hash, ws, w.session);
  }

  /** Exactly when a killed commit can be retried with the same session: the kill came before the
      rename, the lease has not run out since, and the version is still free. After the rename no
      retry of the session succeeds, at once or later (`GoneNeverPublishes`). */
  lemma RetryAfterKill(f: Fleet, hash: Hash, w: Step, later: nat)
    requires Passes(f, hash, w) && w.kill != Never
    ensures var g, retry := Apply(f, hash, w), w.(now := later, kill := Never);
            Publishes(g, hash, retry)
            <==> w.kill == AfterRemove && later < f.leases[f.sessions[w.session].lease].expires
                 && Target(f, w.profile, w.session) !in f.manifests
    ensures w.kill == AfterRename ==> w.session in Apply(f, hash, w).sessions && w.session !in Apply(f, hash, w).staging
  {
  }

  /** What clearing the target first does achieve: a blob left behind by a killed commit never
      keeps another session from publishing that version. */
  lemma LeftoverBlobIsNoObstacle(f: Fleet, hash: Hash, w: Step, blobs: map<Version, Bytes>)
    ensures Publishes(f.(blobs := blobs), hash, w) <==> Publishes(f, hash, w)
    ensures Publishes(f, hash, w) ==> Apply(f.(blobs := blobs), hash, w).blobs[Target(f, w.profile, w.session)] == f.staging[w.session]
  {
  }

  /** A commit killed after its rename: its bytes are at the blob's path, no row names them, and
      the retry finds no staging file. */
  lemma AKilledCommitCanLoseItsSession(hash: Hash) returns (f: Fleet, w: Step)
    ensures Fenced(f) && Chained(f) && BlobsMatch(f, hash) && ClaimsExact(f) && FollowsTarget(f, hash, w)
    ensures Passes(f, hash, w) && w.kill == AfterRename
    ensures forall ws: seq<Step>, now: nat :: !Publishes(After(Apply(f, hash, w), hash, ws), hash, w.(kill := Never, now := now))
  {
    f := Fleet(map[7 := 0], map[5 := Lease(7, 2, 0, 10, false)], map[3 := Session(7, 5, 2, 1, 1, 1, Open)],
               map[], map[3 := [2]], map[]);
    w := CommitStep(7, 3, 0, hash([2]), 0, AfterRename);
    RetryAfterKill(f, hash, w, 0);
    forall ws: seq<Step>, now: nat ensures !Publishes(After(Apply(f, hash, w), hash, ws), hash, w.(kill := Never, now := now)) {
      GoneNeverPublishes(Apply(f, hash, w), hash, ws, w.(kill := Never, now := now));
    }
  }

  // ----------------------------------------------------------- the calls ----

  class Server {
    var fleet: Fleet
    const hash: Hash

    constructor (fleet: Fleet, hash: Hash)
      ensures this.fleet == fleet && this.hash == hash
    {
      this.fleet := fleet;
      this.hash := hash;
    }

    method AcquireLease(profile: Id, lease: Id, expires: nat) returns (r: Result<Lease, Error>)
      modifies this`fleet
      ensures fleet == Apply(old(fleet), hash, AcquireStep(profile, lease, expires))
      ensures r.Ok? <==> Granted(old(fleet), AcquireStep(profile, lease, expires))
      ensures r.Ok? ==> && lease in fleet.leases && r.value == fleet.leases[lease]
                        && r.value.token == MaxToken(old(fleet).leases, profile) + 1 && r.value.base == fleet.current[profile]
      ensures r.Err? ==> Acquire(old(fleet), profile, lease, expires) == Err(r.error)
    {
      if profile !in fleet.current {
        return Err(Database);
      }
      var token := MaxToken(fleet.leases, profile) + 1;
      if token > MAX_WIRE_INT || lease in fleet.leases {
        return Err(Database);
      }
      if exists l :: l in fleet.leases && Live(fleet.leases, l, profile) {
        return Err(AlreadyLeased);
      }
      var granted := Lease(profile, token, fleet.current[profile], expires, false);
      fleet := fleet.(leases := fleet.leases[lease := granted]);
      return Ok(granted);
    }

    method ValidateLease(profile: Id, lease: Id, token: int, now: nat) returns (fault: Option<Error>)
      ensures fault == LeaseFault(fleet, profile, lease, token, now)
      ensures Fenced(fleet) && fault.None? ==> token == MaxToken(fleet.leases, profile)
    {
      if !Live(fleet.leases, lease, profile) {
        return Some(NoSuchLease);
      }
      var row := fleet.leases[lease];
      if row.token != token {
        return Some(StaleFencingToken(token, row.token));
      }
      if now >= row.expires {
        return Some(LeaseExpired);
      }
      return None;
    }

    method ReleaseLease(lease: Id)
      modifies this`fleet
      ensures fleet == Apply(old(fleet), hash, ReleaseStep(lease))
    {
      if lease in fleet.leases && !fleet.leases[lease].released {
        fleet := fleet.(leases := fleet.leases[lease := fleet.leases[lease].(released := true)]);
      }
      assert fleet.leases == Release(old(fleet), lease).leases;
    }

    method StartUpload(session: Id, s: Session, killed: bool) returns (r: Outcome<()>)
      modifies this`fleet
      ensures fleet == Apply(old(fleet), hash, OpenStep(session, s, killed))
      ensures r.Refused? <==> OpenUpload(old(fleet), session, s, killed).Err?
      ensures !r.Refused? ==> (r.Killed? <==> killed)
    {
      if session in fleet.sessions || s.profile !in fleet.current || s.token < 0 {
        return Refused(Database);
      }
      fleet := fleet.(sessions := fleet.sessions[session := s.(received := 0, status := Open)]);
      if killed {
        return Killed;
      }
      fleet := fleet.(staging := fleet.staging[session := []]);
      return Done(());
    }

    method AppendChunk(session: Id, offset: int, bytes: Bytes, cut: Option<nat>) returns (r: Outcome<nat>)
      requires cut.Some? ==> cut.value <= |bytes|
      modifies this`fleet
      ensures fleet == Apply(old(fleet), hash, AppendStep(session, offset, bytes, cut))
      ensures r.Refused? ==> fleet == old(fleet) && AppendFault(old(fleet), session, offset, bytes) == Some(r.error)
      ensures r.Done? ==> && session in fleet.sessions && fleet.sessions[session].received == r.value
                          && r.value == offset + |bytes| <= fleet.sessions[session].declared
      ensures !r.Refused? ==> (r.Killed? <==> cut.Some?)
    {
      if session !in fleet.sessions || fleet.sessions[session].status != Open {
        return Refused(SessionNotOpen);
      }
      var s := fleet.sessions[session];
      if offset != s.received {
        return Refused(ChunkOutOfOrder(s.received, offset));
      }
      var wouldBe := s.received + |bytes|;
      if wouldBe > s.declared {
        return Refused(DeclaredSizeExceeded(s.declared, wouldBe));
      }
      if session !in fleet.staging {
        return Refused(BlobUnavailable);
      }
      if cut.Some? {
        fleet := fleet.(staging := fleet.staging[session := fleet.staging[session] + bytes[..cut.value]]);
        return Killed;
      }
      fleet := fleet.(staging := fleet.staging[session := fleet.staging[session] + bytes]);
      fleet := fleet.(sessions := fleet.sessions[session := s.(received := wouldBe)]);
      return Done(wouldBe);
    }

    /** The rename into place, then the transaction. */
    method Promote(profile: Id, session: Id, base: nat, digest: nat, kill: CommitKill) returns (r: Outcome<nat>)
      requires session in fleet.sessions && session in fleet.staging && profile in fleet.current
      modifies this`fleet
      ensures fleet == Commit(old(fleet), profile, session, base, digest, kill)
      ensures r == if kill != Never then Killed
                   else if Target(old(fleet), profile, session) in old(fleet).manifests then Refused(Database)
                   else Done(old(fleet).sessions[session].target)
    {
      var s := fleet.sessions[session];
      var v := Version(profile, s.target);
      fleet := fleet.(blobs := fleet.blobs - {v});
      if kill == AfterRemove {
        return Killed;
      }
      fleet := fleet.(blobs := fleet.blobs[v := fleet.staging[session]], staging := fleet.staging - {session});
      assert fleet.blobs == old(fleet).blobs[v := old(fleet).staging[session]];
      if kill == AfterRename {
        return Killed;
      }
      if v in fleet.manifests {
        return Refused(Database);
      }
      fleet := fleet.(manifests := fleet.manifests[v := Manifest(base, s.token, digest, s.declared)]);
      fleet := fleet.(current := fleet.current[profile := s.target]);
      fleet := fleet.(sessions := fleet.sessions[session := s.(status := Committed)]);
      return Done(s.target);
    }

    method CommitUpload(profile: Id, session: Id, base: nat, digest: nat, now: nat, kill: CommitKill) returns (r: Outcome<nat>)
      modifies this`fleet
      ensures fleet == Apply(old(fleet), hash, CommitStep(profile, session, base, digest, now, kill))
      ensures r.Done? <==> Publishes(old(fleet), hash, CommitStep(profile, session, base, digest, now, kill))
      ensures r.Done? ==> fleet.current[profile] == r.value == old(fleet).sessions[session].target
      ensures var fault := CommitFault(old(fleet), hash, profile, session, base, digest, now);
              fault.Some? ==> r == Refused(fault.value) && fleet == old(fleet)
      ensures Chained(old(fleet)) && BlobsMatch(old(fleet), hash)
              && FollowsTarget(old(fleet), hash, CommitStep(profile, session, base, digest, now, kill))
              ==> Chained(fleet) && BlobsMatch(fleet, hash)
    {
      if Chained(fleet) && BlobsMatch(fleet, hash) && FollowsTarget(fleet, hash, CommitStep(profile, session, base, digest, now, kill)) {
        ChainedStep(fleet, hash, CommitStep(profile, session, base, digest, now, kill));
      }
      if session !in fleet.sessions || fleet.sessions[session].status != Open {
        return Refused(SessionNotOpen);
      }
      var s := fleet.sessions[session];
      if s.received != s.declared {
        return Refused(SizeMismatch(s.declared, s.received));
      }
      var lease := ValidateLease(profile, s.lease, s.token, now);
      if lease.Some? {
        return Refused(lease.value);
      }
      if session !in fleet.staging {
        return Refused(BlobUnavailable);
      }
      if hash(fleet.staging[session]) != digest {
        return Refused(ContentHashMismatch);
      }
      if profile !in fleet.current {
        return Refused(NoSuchVersion);
      }
      if fleet.current[profile] != base {
        return Refused(VersionConflict(base, fleet.current[profile]));
      }
      r := Promote(profile, session, base, digest, kill);
    }

    method AbortUpload(session: Id, killed: bool) returns (r: Outcome<()>)
      modifies this`fleet
      ensures fleet == Apply(old(fleet), hash, AbortStep(session, killed))
    {
      if session in fleet.sessions && fleet.sessions[session].status == Open {
        fleet := fleet.(staging := fleet.staging - {session});
        if killed {
          return Killed;
        }
        fleet := fleet.(sessions := fleet.sessions[session := fleet.sessions[session].(status := Aborted)]);
      }
      return Done(());
    }
  }
}

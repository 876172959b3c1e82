/** A tenant's one first-device opportunity: the guard, its confirmation, the offline commands
    that move them and the startup pass that repairs nothing by guessing.
    Source: server/src/bootstrap.rs, server/src/integrity.rs. */
module BootstrapGuard {
  import opened Wrappers
  import opened Bytes

  type Id = nat

  datatype Reason = LegacyTenant | MissingGuard | InconsistentConfirmation | IntegrityFailure
  datatype Guard = Unused | Reserved | Consumed | Closed | Recovery(reason: Reason)
  /** The primary key of a guard and of a confirmation. */
  datatype GuardKey = GuardKey(instance: Id, tenant: Id)
  datatype Settlement = Pending | WasConsumed | Cancelled | Invalidated
  datatype Confirmation = Confirmation(account: Id, device: Id, signingId: Id, hpkeId: Id, state: Settlement)

  datatype DeviceKey = DeviceKey(tenant: Id, device: Id)
  datatype Status = AwaitsApproval | Active | Revoked | Quarantined
  /** What the checks of a device's stored suites, keys and ids find. */
  datatype Keys = Keys(sized: bool, pinnedSuites: bool, usablePoint: bool, derivedIds: bool, signingId: Id, hpkeId: Id)
  datatype Device = Device(account: Id, status: Status, keys: Keys)
  datatype KeyFault = InvalidEncoding | IdMismatch
  datatype QuarantineRow = QuarantineRow(fault: KeyFault, prior: Status)

  /** A session, or an open session challenge; only a challenge can be consumed. */
  datatype Session = Session(device: DeviceKey, consumed: bool, revoked: bool)

  /** The rows these commands read and write. `history` holds the tenants with an approval, a
      grant or a root key generation, `owners` their active owners. */
  datatype Control = Control(
    tenants: map<Id, bool>,
    guards: map<GuardKey, Guard>,
    confirmations: map<GuardKey, Confirmation>,
    devices: map<DeviceKey, Device>,
    quarantine: map<DeviceKey, QuarantineRow>,
    sessions: map<Id, Session>,
    history: set<Id>,
    owners: map<Id, set<Id>>)

  // ---------------------------------------------------------- consistency ----

  function FaultOf(k: Keys): Option<KeyFault> {
    if !k.sized || !k.pinnedSuites || !k.usablePoint then Some(InvalidEncoding)
    else if !k.derivedIds then Some(IdMismatch)
    else None
  }

  /** A guard agrees with its confirmation, as the SQL of the startup pass says it. */
  predicate Agrees(c: Control, g: GuardKey)
    requires g in c.guards
  {
    match c.guards[g]
    case Unused => g !in c.confirmations
    case Reserved =>
      && g in c.confirmations && c.confirmations[g].state == Pending
      && var d := DeviceKey(g.tenant, c.confirmations[g].device);
      && d in c.devices && c.devices[d].status == AwaitsApproval
    case Consumed => g in c.confirmations && c.confirmations[g].state == WasConsumed
    case Closed => g in c.confirmations && c.confirmations[g].state in {Cancelled, Invalidated}
    case Recovery(_) => true
  }

  ghost predicate AllAgree(c: Control) { forall g | g in c.guards :: Agrees(c, g) }

  predicate IsBad(c: Control, d: DeviceKey) {
    d in c.devices && c.devices[d].status != Quarantined && d !in c.quarantine && FaultOf(c.devices[d].keys).Some?
  }

  /** What the startup pass leaves: no device with bad keys is unmarked, every tenant has a guard
      of this instance, and every guard agrees or is in recovery. */
  ghost predicate Settled(c: Control, instance: Id) {
    && (forall d :: !IsBad(c, d))
    && (forall t | t in c.tenants :: GuardKey(instance, t) in c.guards)
    && AllAgree(c)
  }

  // ---------------------------------------------------------- startup pass ----

  function Bad(c: Control): set<DeviceKey> { set d | d in c.devices && IsBad(c, d) }

  predicate TenantHit(bad: set<DeviceKey>, tenant: Id) { exists d :: d in bad && d.tenant == tenant }

  /** A revoked device stays revoked. */
  function DevicesAfter(c: Control, bad: set<DeviceKey>): map<DeviceKey, Device> {
    map d | d in c.devices ::
      if d in bad && c.devices[d].status != Revoked then c.devices[d].(status := Quarantined) else c.devices[d]
  }

  function MarksAfter(c: Control, bad: set<DeviceKey>): map<DeviceKey, QuarantineRow> {
    c.quarantine + (map d | d in bad && IsBad(c, d) :: QuarantineRow(FaultOf(c.devices[d].keys).value, c.devices[d].status))
  }

  /** An open guard of the device's tenant, of any instance, goes to recovery. */
  function GuardsAfter(c: Control, bad: set<DeviceKey>): map<GuardKey, Guard> {
    map g | g in c.guards ::
      if c.guards[g] in {Unused, Reserved} && TenantHit(bad, g.tenant) then Recovery(IntegrityFailure) else c.guards[g]
  }

  function SessionsAfter(c: Control, bad: set<DeviceKey>): map<Id, Session> {
    map s | s in c.sessions ::
      if c.sessions[s].device in bad && !c.sessions[s].consumed then c.sessions[s].(revoked := true) else c.sessions[s]
  }

  /** The rows once the devices of `bad` are quarantined. */
  function QuarantineAll(c: Control, bad: set<DeviceKey>): Control {
    c.(devices := DevicesAfter(c, bad), quarantine := MarksAfter(c, bad),
       guards := GuardsAfter(c, bad), sessions := SessionsAfter(c, bad))
  }

  function MissingKeys(c: Control, instance: Id): set<GuardKey> {
    (set t | t in c.tenants :: GuardKey(instance, t)) - c.guards.Keys
  }

  function CreateMissing(c: Control, instance: Id): Control {
    c.(guards := c.guards + map g | g in MissingKeys(c, instance) :: Recovery(MissingGuard))
  }

  function Reconcile(c: Control): Control {
    c.(guards := map g | g in c.guards :: if Agrees(c, g) then c.guards[g] else Recovery(InconsistentConfirmation))
  }

  /** The three transactions of a whole pass. */
  function Pass(c: Control, instance: Id): Control {
    Reconcile(CreateMissing(QuarantineAll(c, Bad(c)), instance))
  }

  lemma QuarantineLeavesNoneBad(c: Control)
    ensures forall d :: !IsBad(QuarantineAll(c, Bad(c)), d)
  {
    hide GuardsAfter, SessionsAfter;
  }

  lemma CreateMissingCovers(c: Control, instance: Id)
    ensures forall t | t in c.tenants :: GuardKey(instance, t) in CreateMissing(c, instance).guards
  {
    forall t | t in c.tenants ensures GuardKey(instance, t) in CreateMissing(c, instance).guards {
      assert GuardKey(instance, t) in set u | u in c.tenants :: GuardKey(instance, u);
    }
  }

  lemma ReconcileAgrees(c: Control)
    ensures AllAgree(Reconcile(c)) && Reconcile(c).guards.Keys == c.guards.Keys
  {
  }

  lemma PassSettles(c: Control, instance: Id)
    ensures Settled(Pass(c, instance), instance)
  {
    var a := QuarantineAll(c, Bad(c));
    var b := CreateMissing(a, instance);
    QuarantineLeavesNoneBad(c);
    CreateMissingCovers(a, instance);
    ReconcileAgrees(b);
    hide QuarantineAll, AllAgree, MissingKeys, Agrees;
    forall d ensures !IsBad(Reconcile(b), d) {
      assert IsBad(Reconcile(b), d) == IsBad(a, d);
    }
  }

  /** A device with bad keys ends its tenant's bootstrap for good: the pass marks it with what was
      wrong and what it was, leaves it quarantined or revoked, revokes its sessions, and leaves no
      guard of its tenant open. */
  lemma BadKeysEndBootstrap(c: Control, instance: Id, d: DeviceKey)
    requires IsBad(c, d)
    ensures var p := Pass(c, instance);
            && d in p.devices && p.devices[d].status == (if c.devices[d].status == Revoked then Revoked else Quarantined)
            && d in p.quarantine && p.quarantine[d] == QuarantineRow(FaultOf(c.devices[d].keys).value, c.devices[d].status)
            && (forall s | s in p.sessions && p.sessions[s].device == d && !p.sessions[s].consumed :: p.sessions[s].revoked)
            && (forall g | g in p.guards && g.tenant == d.tenant :: p.guards[g] !in {Unused, Reserved})
  {
    hide DevicesAfter, MarksAfter, SessionsAfter, GuardsAfter, Agrees, MissingKeys;
    assert d in Bad(c);
    QuarantinedRows(c, Bad(c), d);
  }

  lemma QuarantinedRows(c: Control, bad: set<DeviceKey>, d: DeviceKey)
    requires d in bad && IsBad(c, d)
    ensures var a := QuarantineAll(c, bad);
            && d in a.devices && a.devices[d].status == (if c.devices[d].status == Revoked then Revoked else Quarantined)
            && d in a.quarantine && a.quarantine[d] == QuarantineRow(FaultOf(c.devices[d].keys).value, c.devices[d].status)
            && (forall s | s in a.sessions && a.sessions[s].device == d && !a.sessions[s].consumed :: a.sessions[s].revoked)
            && (forall g | g in a.guards && g.tenant == d.tenant :: a.guards[g] !in {Unused, Reserved})
  {
    assert TenantHit(bad, d.tenant);
  }

  /** A pass changes nothing exactly when the rows are settled, so a second pass never does. */
  lemma PassIsFixed(c: Control, instance: Id)
    ensures Pass(c, instance) == c <==> Settled(c, instance)
    ensures Pass(Pass(c, instance), instance) == Pass(c, instance)
  {
    PassSettles(c, instance);
    if Settled(c, instance) {
      SettledIsFixed(c, instance);
    }
    SettledIsFixed(Pass(c, instance), instance);
  }

  lemma SettledIsFixed(c: Control, instance: Id)
    requires Settled(c, instance)
    ensures Pass(c, instance) == c
  {
    hide QuarantineAll;
    assert Bad(c) == {};
    NoneQuarantined(c);
    assert MissingKeys(c, instance) == {} by {
      hide Agrees;
    }
    assert CreateMissing(c, instance).guards == c.guards;
    assert Reconcile(c).guards == c.guards;
  }

  lemma NoneQuarantined(c: Control)
    ensures QuarantineAll(c, {}) == c
  {
    var a := QuarantineAll(c, {});
    assert a.devices == c.devices && a.guards == c.guards && a.sessions == c.sessions && a.quarantine == c.quarantine;
  }

  /** Quarantining one device more, after the others, is quarantining them all. */
  lemma OneMore(c: Control, done: set<DeviceKey>, d: DeviceKey)
    requires done + {d} <= Bad(c) && d !in done
    ensures IsBad(QuarantineAll(c, done), d)
    ensures QuarantineAll(QuarantineAll(c, done), {d}) == QuarantineAll(c, done + {d})
  {
    hide DevicesAfter, MarksAfter, GuardsAfter, SessionsAfter;
    assert IsBad(c, d);
    StillBad(c, done, d);
    MoreDevices(c, done, d);
    MoreMarks(c, done, d);
    MoreGuards(c, done, d);
    MoreSessions(c, done, d);
  }

  /** What one device's transaction writes, statement by statement. */
  lemma OneDevice(c: Control, d: DeviceKey)
    requires IsBad(c, d)
    ensures MarksAfter(c, {d}) == c.quarantine[d := QuarantineRow(FaultOf(c.devices[d].keys).value, c.devices[d].status)]
    ensures DevicesAfter(c, {d})
         == if c.devices[d].status == Revoked then c.devices else c.devices[d := c.devices[d].(status := Quarantined)]
    ensures GuardsAfter(c, {d})
         == map g | g in c.guards ::
              if c.guards[g] in {Unused, Reserved} && g.tenant == d.tenant then Recovery(IntegrityFailure) else c.guards[g]
    ensures SessionsAfter(c, {d})
         == map s | s in c.sessions ::
              if c.sessions[s].device == d && !c.sessions[s].consumed then c.sessions[s].(revoked := true) else c.sessions[s]
  {
    forall t ensures TenantHit({d}, t) <==> t == d.tenant {
      assert d in {d};
    }
  }

  lemma StillBad(c: Control, done: set<DeviceKey>, d: DeviceKey)
    requires IsBad(c, d) && d !in done
    ensures IsBad(QuarantineAll(c, done), d) && QuarantineAll(c, done).devices[d] == c.devices[d]
  {
    hide GuardsAfter, SessionsAfter;
  }

  lemma MoreDevices(c: Control, done: set<DeviceKey>, d: DeviceKey)
    requires done + {d} <= Bad(c) && d !in done
    ensures DevicesAfter(QuarantineAll(c, done), {d}) == DevicesAfter(c, done + {d})
  {
    hide GuardsAfter, SessionsAfter, MarksAfter;
    StillBad(c, done, d);
    var a, all := QuarantineAll(c, done), done + {d};
    forall e | e in c.devices ensures DevicesAfter(a, {d})[e] == DevicesAfter(c, all)[e] {
      assert e in all <==> e in done || e == d;
    }
  }

  lemma MarksOneMore(c: Control, done: set<DeviceKey>, d: DeviceKey)
    requires IsBad(c, d)
    ensures MarksAfter(c, done + {d})
         == MarksAfter(c, done)[d := QuarantineRow(FaultOf(c.devices[d].keys).value, c.devices[d].status)]
  {
  }

  lemma MoreMarks(c: Control, done: set<DeviceKey>, d: DeviceKey)
    requires done + {d} <= Bad(c) && d !in done
    ensures MarksAfter(QuarantineAll(c, done), {d}) == MarksAfter(c, done + {d})
  {
    hide GuardsAfter, SessionsAfter, DevicesAfter, MarksAfter;
    assert IsBad(c, d);
    StillBad(c, done, d);
    hide IsBad;
    OneDevice(QuarantineAll(c, done), d);
    MarksOneMore(c, done, d);
  }

  lemma MoreSessions(c: Control, done: set<DeviceKey>, d: DeviceKey)
    ensures SessionsAfter(QuarantineAll(c, done), {d}) == SessionsAfter(c, done + {d})
  {
    hide DevicesAfter, MarksAfter, GuardsAfter;
  }

  lemma MoreGuards(c: Control, done: set<DeviceKey>, d: DeviceKey)
    ensures GuardsAfter(QuarantineAll(c, done), {d}) == GuardsAfter(c, done + {d})
  {
    hide DevicesAfter, MarksAfter, SessionsAfter;
    forall t ensures TenantHit(done + {d}, t) <==> TenantHit(done, t) || t == d.tenant {
      assert d in done + {d};
    }
    forall t ensures TenantHit({d}, t) <==> t == d.tenant {
      assert d in {d};
    }
  }

  // ------------------------------------------------------- first-device commands ----

  datatype Error =
    | NoTenant | TenantInactive | NoGuard | Opportunity(guard: Guard) | HasHistory | HasConfirmation
    | OwnerCount(n: nat) | NoDevice | DeviceIs(status: Status) | NotTheOwners | NeedsReconciliation
    | TypedMismatch | DeviceChanged
    | NotReserved(guard: Guard) | NoPendingConfirmation | ConfirmationStale

  /** Every precondition of a new confirmation, in the code's order. */
  function CandidateFault(c: Control, g: GuardKey, device: Id): Option<Error> {
    var d := DeviceKey(g.tenant, device);
    if g.tenant !in c.tenants then Some(NoTenant)
    else if !c.tenants[g.tenant] then Some(TenantInactive)
    else if g !in c.guards then Some(NoGuard)
    else if c.guards[g] != Unused then Some(Opportunity(c.guards[g]))
    else if g.tenant in c.history then Some(HasHistory)
    else if exists other :: other in c.confirmations && other.tenant == g.tenant then Some(HasConfirmation)
    else if g.tenant !in c.owners then Some(OwnerCount(0))
    else if |c.owners[g.tenant]| != 1 then Some(OwnerCount(|c.owners[g.tenant]|))
    else if d !in c.devices then Some(NoDevice)
    else if c.devices[d].status != AwaitsApproval then Some(DeviceIs(c.devices[d].status))
    else if c.devices[d].account !in c.owners[g.tenant] then Some(NotTheOwners)
    else if FaultOf(c.devices[d].keys).Some? then Some(NeedsReconciliation)
    else None
  }

  /** The confirmation is checked on the rows as shown, then again on the rows of the writing
      transaction, `now`, with the ids the operator typed. */
  function ConfirmFault(shown: Control, now: Control, g: GuardKey, device: Id, signing: Id, hpke: Id): Option<Error> {
    var d := DeviceKey(g.tenant, device);
    var first := CandidateFault(shown, g, device);
    if first.Some? then first
    else if signing != shown.devices[d].keys.signingId || hpke != shown.devices[d].keys.hpkeId then Some(TypedMismatch)
    else
      var again := CandidateFault(now, g, device);
      if again.Some? then again
      else if now.devices[d].keys.signingId != signing || now.devices[d].keys.hpkeId != hpke then Some(DeviceChanged)
      else None
  }

  function Confirmed(c: Control, g: GuardKey, device: Id): Control
    requires DeviceKey(g.tenant, device) in c.devices
  {
    var row := c.devices[DeviceKey(g.tenant, device)];
    c.(confirmations := c.confirmations[g := Confirmation(row.account, device, row.keys.signingId, row.keys.hpkeId, Pending)],
       guards := c.guards[g := Reserved])
  }

  function CancelFault(c: Control, g: GuardKey): Option<Error> {
    if g.tenant !in c.tenants then Some(NoTenant)
    else if g !in c.guards then Some(NoGuard)
    else if c.guards[g] != Reserved then Some(NotReserved(c.guards[g]))
    else if g !in c.confirmations || c.confirmations[g].state != Pending then Some(NoPendingConfirmation)
    else
      var d := DeviceKey(g.tenant, c.confirmations[g].device);
      if d !in c.devices || c.devices[d].status != AwaitsApproval then Some(ConfirmationStale) else None
  }

  function CancelledBy(c: Control, g: GuardKey): Control
    requires g in c.confirmations
  {
    c.(confirmations := c.confirmations[g := c.confirmations[g].(state := Cancelled)], guards := c.guards[g := Closed])
  }

  /** A confirmation is written only for a pending device of the tenant's one active owner whose
      stored ids are the ones shown, typed and still there, and it keeps every guard's agreement. */
  lemma ConfirmKeepsAgreement(shown: Control, now: Control, g: GuardKey, device: Id, signing: Id, hpke: Id)
    requires AllAgree(now) && ConfirmFault(shown, now, g, device, signing, hpke).None?
    ensures AllAgree(Confirmed(now, g, device))
    ensures var made := Confirmed(now, g, device).confirmations[g];
            && made.signingId == signing && made.hpkeId == hpke && now.owners[g.tenant] == {made.account}
            && made.state == Pending && g !in now.confirmations && now.guards[g] == Unused
    ensures now.tenants[g.tenant] && g.tenant !in now.history
    ensures var row := now.devices[DeviceKey(g.tenant, device)];
            row.status == AwaitsApproval && FaultOf(row.keys).None? && now.owners[g.tenant] == {row.account}
  {
    var owners := now.owners[g.tenant];
    var row := now.devices[DeviceKey(g.tenant, device)];
    assert owners == {row.account} by {
      assert |owners - {row.account}| == 0;
    }
  }

  /** A cancel succeeds exactly on a reserved guard that agrees, and keeps every guard's agreement. */
  lemma CancelKeepsAgreement(c: Control, g: GuardKey)
    requires AllAgree(c)
    ensures CancelFault(c, g).None? <==> g.tenant in c.tenants && g in c.guards && c.guards[g] == Reserved
    ensures CancelFault(c, g).None? ==> AllAgree(CancelledBy(c, g))
  {
  }

  // ---------------------------------------------------------------- runs ----

  /** One transaction of these commands, or of anything else on the same database. */
  datatype Step =
    | QuarantineOne(bad: DeviceKey)
    | CreateStep(instance: Id)
    | ReconcileStep
    | ConfirmStep(shown: Control, key: GuardKey, device: Id, signing: Id, hpke: Id)
    | CancelStep(key: GuardKey)
    | Elsewhere(next: Control)

  function Rank(s: Guard): nat {
    match s
    case Unused => 0
    case Reserved => 1
    case Consumed => 2
    case Closed => 2
    case Recovery(_) => 3
  }

  predicate Later(s: Guard, t: Guard) { s == t || Rank(s) < Rank(t) }

  /** What the triggers on the guard table let any statement do: no guard goes, and only along
      the transition table; recovery is frozen. */
  predicate TriggersAllow(s: Guard, t: Guard) {
    s == t || (s == Unused && (t == Reserved || t.Recovery?)) || (s == Reserved && (t == Consumed || t == Closed || t.Recovery?))
    || (s in {Consumed, Closed} && t.Recovery?)
  }

  ghost predicate Enabled(c: Control, w: Step) {
    match w
    case QuarantineOne(d) => IsBad(c, d)
    case Elsewhere(next) => forall g | g in c.guards :: g in next.guards && TriggersAllow(c.guards[g], next.guards[g])
    case _ => true
  }

  predicate Confirms(c: Control, w: Step, g: GuardKey) {
    w.ConfirmStep? && w.key == g && ConfirmFault(w.shown, c, g, w.device, w.signing, w.hpke).None?
  }

  function Apply(c: Control, w: Step): Control {
    match w
    case QuarantineOne(d) => if IsBad(c, d) then QuarantineAll(c, {d}) else c
    case CreateStep(instance) => CreateMissing(c, instance)
    case ReconcileStep => Reconcile(c)
    case ConfirmStep(shown, g, device, signing, hpke) =>
      if ConfirmFault(shown, c, g, device, signing, hpke).None? then Confirmed(c, g, device) else c
    case CancelStep(g) => if CancelFault(c, g).None? then CancelledBy(c, g) else c
    case Elsewhere(next) => next
  }

  function After(c: Control, ws: seq<Step>): Control
    decreases |ws|
  {
    if ws == [] then c else After(Apply(c, ws[0]), ws[1..])
  }

  ghost predicate Run(c: Control, ws: seq<Step>)
    decreases |ws|
  {
    ws == [] || (Enabled(c, ws[0]) && Run(Apply(c, ws[0]), ws[1..]))
  }

  /** No step moves a guard anywhere the triggers would have to stop. */
  lemma StepMovesForward(c: Control, w: Step)
    requires Enabled(c, w)
    ensures forall g | g in c.guards :: g in Apply(c, w).guards && TriggersAllow(c.guards[g], Apply(c, w).guards[g])
    ensures forall g :: g in c.guards && Confirms(c, w, g) ==> c.guards[g] == Unused && Apply(c, w).guards[g] == Reserved
  {
  }

  /** Over every run, guards only move forward: none returns to unused, none goes, none leaves
      recovery or changes its reason. */
  lemma {:induction false} GuardsAreOneWay(c: Control, ws: seq<Step>, g: GuardKey)
    requires Run(c, ws) && g in c.guards
    ensures g in After(c, ws).guards && Later(c.guards[g], After(c, ws).guards[g])
    ensures After(c, ws).guards[g] == Unused ==> c.guards[g] == Unused
    ensures c.guards[g].Recovery? ==> After(c, ws).guards[g] == c.guards[g]
    decreases |ws|
  {
    hide Apply, Enabled;
    if ws != [] {
      StepMovesForward(c, ws[0]);
      GuardsAreOneWay(Apply(c, ws[0]), ws[1..], g);
    }
  }

  /** A tenant's first device is confirmed at most once in any run: after one confirmation no
      later one of the same guard is ever accepted. */
  lemma {:induction false} ConfirmedOnce(c: Control, ws: seq<Step>, w: Step, g: GuardKey)
    requires g in c.guards && c.guards[g] != Unused && Run(c, ws)
    ensures !Confirms(After(c, ws), w, g)
  {
    hide After, Apply, Enabled;
    GuardsAreOneWay(c, ws, g);
  }

  lemma ConfirmingEndsIt(c: Control, w: Step, ws: seq<Step>, later: Step, g: GuardKey)
    requires g in c.guards && Confirms(c, w, g) && Run(Apply(c, w), ws)
    ensures !Confirms(After(Apply(c, w), ws), later, g)
  {
    StepMovesForward(c, w);
    ConfirmedOnce(Apply(c, w), ws, later, g);
  }

  // ------------------------------------------------------------ the commands ----

  class Database {
    var rows: Control

    constructor (rows: Control)
      ensures this.rows == rows
    {
      this.rows := rows;
    }

    /** One device's transaction. */
    method QuarantineDevice(d: DeviceKey)
      requires IsBad(rows, d)
      modifies this
      ensures rows == QuarantineAll(old(rows), {d})
    {
      hide DevicesAfter, MarksAfter, GuardsAfter, SessionsAfter;
      OneDevice(rows, d);
      var row := rows.devices[d];
      var fault := FaultOf(row.keys).value;
      rows := rows.(quarantine := rows.quarantine[d := QuarantineRow(fault, row.status)]);
      if row.status != Revoked {
        rows := rows.(devices := rows.devices[d := row.(status := Quarantined)]);
      }
      rows := rows.(guards := map g | g in rows.guards ::
                      if rows.guards[g] in {Unused, Reserved} && g.tenant == d.tenant then Recovery(IntegrityFailure) else rows.guards[g]);
      rows := rows.(sessions := map s | s in rows.sessions ::
                      if rows.sessions[s].device == d && !rows.sessions[s].consumed then rows.sessions[s].(revoked := true)
                      else rows.sessions[s]);
    }

    method QuarantineBadKeys() returns (n: nat)
      modifies this
      ensures rows == QuarantineAll(old(rows), Bad(old(rows))) && n == |Bad(old(rows))|
    {
      hide DevicesAfter, MarksAfter, GuardsAfter, SessionsAfter, IsBad;
      var rest := Bad(rows);
      ghost var done: set<DeviceKey> := {};
      n := 0;
      NoneQuarantined(rows);
      while rest != {}
        invariant done + rest == Bad(old(rows)) && done !! rest && n == |done|
        invariant rows == QuarantineAll(old(rows), done)
        decreases rest
      {
        var d :| d in rest;
        OneMore(old(rows), done, d);
        QuarantineDevice(d);
        rest, done, n := rest - {d}, done + {d}, n + 1;
      }
      assert done == Bad(old(rows));
    }

    method CreateMissingGuards(instance: Id) returns (n: nat)
      modifies this
      ensures rows == CreateMissing(old(rows), instance) && n == |MissingKeys(old(rows), instance)|
    {
      var missing := MissingKeys(rows, instance);
      n := |missing|;
      rows := rows.(guards := rows.guards + map g | g in missing :: Recovery(MissingGuard));
    }

    method ReconcileGuards() returns (n: nat)
      modifies this
      ensures rows == Reconcile(old(rows)) && n == |set g | g in old(rows).guards && !Agrees(old(rows), g)|
    {
      var moved := set g | g in rows.guards && !Agrees(rows, g);
      n := |moved|;
      rows := rows.(guards := map g | g in rows.guards :: if g in moved then Recovery(InconsistentConfirmation) else rows.guards[g]);
    }

    /** The part of the startup pass that repairs devices and guards. */
    method RunPass(instance: Id) returns (quarantined: nat, created: nat, moved: nat)
      modifies this
      ensures rows == Pass(old(rows), instance) && Settled(rows, instance)
      ensures rows == old(rows) <==> Settled(old(rows), instance)
    {
      PassIsFixed(rows, instance);
      PassSettles(rows, instance);
      quarantined := QuarantineBadKeys();
      created := CreateMissingGuards(instance);
      moved := ReconcileGuards();
    }

    /** `now` is what the database holds when the writing transaction begins. */
    method Confirm(g: GuardKey, device: Id, signing: Id, hpke: Id, now: Control) returns (fault: Option<Error>)
      modifies this
      ensures fault == ConfirmFault(old(rows), now, g, device, signing, hpke)
      ensures rows == if fault.None? then Confirmed(now, g, device)
                      else if CandidateFault(old(rows), g, device).Some? || fault == Some(TypedMismatch) then old(rows) else now
      ensures fault.None? && AllAgree(now) ==> AllAgree(rows)
    {
      if AllAgree(now) && ConfirmFault(rows, now, g, device, signing, hpke).None? {
        ConfirmKeepsAgreement(rows, now, g, device, signing, hpke);
      }
      var d := DeviceKey(g.tenant, device);
      fault := CandidateFault(rows, g, device);
      if fault.Some? {
        return;
      }
      var shown := rows.devices[d].keys;
      if signing != shown.signingId || hpke != shown.hpkeId {
        return Some(TypedMismatch);
      }
      rows := now;
      fault := CandidateFault(rows, g, device);
      if fault.Some? {
        return;
      }
      var row := rows.devices[d];
      if row.keys.signingId != shown.signingId || row.keys.hpkeId != shown.hpkeId {
        return Some(DeviceChanged);
      }
      rows := rows.(confirmations := rows.confirmations[g := Confirmation(row.account, device, row.keys.signingId, row.keys.hpkeId, Pending)]);
      rows := rows.(guards := rows.guards[g := Reserved]);
      return None;
    }

    method Cancel(g: GuardKey) returns (fault: Option<Error>)
      modifies this
      ensures fault == CancelFault(old(rows), g)
      ensures rows == if fault.None? then CancelledBy(old(rows), g) else old(rows)
      ensures AllAgree(old(rows)) ==> AllAgree(rows)
    {
      if AllAgree(rows) {
        CancelKeepsAgreement(rows, g);
      }
      fault := CancelFault(rows, g);
      if fault.None? {
        rows := rows.(confirmations := rows.confirmations[g := rows.confirmations[g].(state := Cancelled)]);
        rows := rows.(guards := rows.guards[g := Closed]);
      }
    }
  }

  // ------------------------------------------------------------- device ids ----

  predicate HexDigit(c: char) { '0' <= c <= '9' || 'a' <= c <= 'f' || 'A' <= c <= 'F' }

  function HexValue(c: char): (n: nat)
    requires HexDigit(c)
    ensures n < 16
  {
    if c <= '9' then c as int - '0' as int
    else if c <= 'F' then c as int - 'A' as int + 10
    else c as int - 'a' as int + 10
  }

  function HexChar(n: nat): char
    requires n < 16
  {
    if n < 10 then ('0' as int + n) as char else ('a' as int + n - 10) as char
  }

  /** `hex`: two lowercase digits a byte. */
  function Hex(b: Bytes): string {
    if b == [] then [] else [HexChar(b[0] / 16), HexChar(b[0] % 16)] + Hex(b[1..])
  }

  /** Exactly 32 hex digits, read two a byte; no sign, no shorter form. */
  method ParseDeviceId(s: string) returns (r: Option<Bytes>)
    ensures r.Some? <==> |s| == 32 && forall i | 0 <= i < 32 :: HexDigit(s[i])
    ensures r.Some? ==> |r.value| == 16 && forall i | 0 <= i < 16 :: r.value[i] == HexValue(s[2 * i]) * 16 + HexValue(s[2 * i + 1])
  {
    if |s| != 32 || exists i :: 0 <= i < |s| && !HexDigit(s[i]) {
      return None;
    }
    var out := new Byte[16];
    for i := 0 to 16
      invariant forall k | 0 <= k < i :: out[k] == HexValue(s[2 * k]) * 16 + HexValue(s[2 * k + 1])
    {
      out[i] := HexValue(s[2 * i]) * 16 + HexValue(s[2 * i + 1]);
    }
    return Some(out[..]);
  }

  /** A printed id is accepted, and read back as itself. */
  lemma {:induction false} HexReadsBack(b: Bytes, k: nat)
    requires k < |b|
    ensures |Hex(b)| == 2 * |b| && HexDigit(Hex(b)[2 * k]) && HexDigit(Hex(b)[2 * k + 1])
    ensures HexValue(Hex(b)[2 * k]) * 16 + HexValue(Hex(b)[2 * k + 1]) == b[k]
  {
    if |b| == 1 {
      assert Hex(b[1..]) == [];
    } else {
      HexReadsBack(b[1..], if k > 0 then k - 1 else 0);
    }
  }
}

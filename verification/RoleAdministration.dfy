/**
 Tenant role administration: what each call does to the RBAC tables and the audit log when its transaction
 commits, and the theorem that the log alone rebuilds the tables.
 */
module RoleAdministration {
  import opened Prelude
  import opened RoleIntents

  datatype Permission =
    | TenantMembershipsRead | TenantMembershipsManage | TenantRolesRead | TenantRolesManage
    | TenantUserUiSettingsManageSelf | TenantUiSettingsManage
    | PlatformTenantsRead | PlatformTenantsManage | PlatformUiSettingsManage

  function PermissionId(p: Permission): string {
    match p
    case TenantMembershipsRead => "tenant.memberships.read"
    case TenantMembershipsManage => "tenant.memberships.manage"
    case TenantRolesRead => "tenant.roles.read"
    case TenantRolesManage => "tenant.roles.manage"
    case TenantUserUiSettingsManageSelf => "tenant.user_ui_settings.manage_self"
    case TenantUiSettingsManage => "tenant.ui_settings.manage"
    case PlatformTenantsRead => "platform.tenants.read"
    case PlatformTenantsManage => "platform.tenants.manage"
    case PlatformUiSettingsManage => "platform.ui_settings.manage"
  }

  function PermissionCatalog(): seq<string> {
    [PermissionId(TenantMembershipsRead), PermissionId(TenantMembershipsManage), PermissionId(TenantRolesRead),
     PermissionId(TenantRolesManage), PermissionId(TenantUserUiSettingsManageSelf),
     PermissionId(TenantUiSettingsManage), PermissionId(PlatformTenantsRead), PermissionId(PlatformTenantsManage),
     PermissionId(PlatformUiSettingsManage)]
  }

  /** The permission a role event names, if any, is catalogued. */
  predicate Catalogued(e: RoleEvent) {
    e.permission.Some? ==> e.permission.value in PermissionCatalog()
  }

  lemma PermissionListed(p: Permission)
    ensures PermissionId(p) in PermissionCatalog()
  {
    hide PermissionId;
    var i := match p
      case TenantMembershipsRead => 0
      case TenantMembershipsManage => 1
      case TenantRolesRead => 2
      case TenantRolesManage => 3
      case TenantUserUiSettingsManageSelf => 4
      case TenantUiSettingsManage => 5
      case PlatformTenantsRead => 6
      case PlatformTenantsManage => 7
      case PlatformUiSettingsManage => 8;
    assert PermissionCatalog()[i] == PermissionId(p);
  }

  predicate TenantScoped(p: Permission) {
    "tenant." <= PermissionId(p)
  }

  // ---- tables ----------------------------------------------------------------------------------------------

  datatype Account = Account(active: bool, securityVersion: nat)

  datatype SessionRow = SessionRow(
    user: nat, selected: Option<nat>, selectedVersion: Option<nat>, revoked: bool,
    idleExpiresAt: int, absoluteExpiresAt: int, securityVersion: nat)

  datatype MembershipRow = MembershipRow(user: nat, tenant: nat, active: bool, version: nat)

  /** The identity tables, which role administration reads and never writes. */
  datatype Directory = Directory(
    users: map<nat, Account>, sessions: map<nat, SessionRow>, memberships: map<nat, MembershipRow>,
    activeTenants: set<nat>)

  /** An audit row of this subsystem, or one written by another. */
  datatype LogEntry = Role(row: AuditRow) | Other(id: nat)

  datatype Tables = Tables(
    roles: map<nat, RoleRow>, grants: set<Grant>, members: set<Member>, log: seq<LogEntry>, directory: Directory)

  /** The evidence the authorization boundary hands over: who acts, in which tenant, under which permission. */
  datatype Actor = Actor(user: nat, session: nat, membership: nat, membershipVersion: nat, tenant: nat,
    permission: Permission)

  predicate ActiveIn(d: Directory, membership: nat, tenant: nat) {
    membership in d.memberships && d.memberships[membership].tenant == tenant && d.memberships[membership].active
  }

  /** is_active_membership_in_tenant */
  predicate ActiveMembership(d: Directory, membership: nat, tenant: nat) {
    && ActiveIn(d, membership, tenant)
    && d.memberships[membership].user in d.users && d.users[d.memberships[membership].user].active
    && tenant in d.activeTenants
  }

  /** The identity join prepare makes under its locks. */
  predicate Linked(d: Directory, e: RoleEvent, membershipVersion: nat, tenant: nat, now: int) {
    && e.session in d.sessions && e.user in d.users && e.membership in d.memberships
    && var s, u, m := d.sessions[e.session], d.users[e.user], d.memberships[e.membership];
    && s.user == e.user && m.user == e.user && s.selected == Some(e.membership)
    && !s.revoked && now < s.idleExpiresAt && now < s.absoluteExpiresAt
    && s.securityVersion == u.securityVersion
    && s.selectedVersion == Some(m.version) && m.version == membershipVersion
    && m.active && u.active && m.tenant == tenant && tenant in d.activeTenants
    && (e.target.Some? ==> ActiveIn(d, e.target.value, tenant))
  }

  /** The identity links the audit insert guard checks again. */
  predicate LinksHold(d: Directory, e: RoleEvent) {
    && e.user in d.users
    && e.session in d.sessions && d.sessions[e.session].user == e.user
       && d.sessions[e.session].selected == Some(e.membership)
    && e.membership in d.memberships && d.memberships[e.membership].user == e.user
  }

  predicate IdTaken(log: seq<LogEntry>, id: nat) {
    exists k :: 0 <= k < |log| && (match log[k] case Role(row) => row.id == id case Other(i) => i == id)
  }

  // ---- calls ----------------------------------------------------------------------------------------------

  datatype Call =
    | CreateRole(role: nat, key: string, name: string)
    | UpdateRole(role: nat, expectedVersion: int, name: string)
    | DisableRole(role: nat, expectedVersion: int)
    | AssignPermission(role: nat, permission: Permission)
    | RemovePermission(role: nat, permission: Permission)
    | AssignRole(membership: nat, role: nat)
    | RemoveRole(membership: nat, role: nat)

  /** What a call draws: its transaction, its event and correlation identifiers and its reading of the clock. */
  datatype Draw = Draw(tx: nat, pid: nat, event: nat, correlation: nat, now: int)

  datatype Error = BoundaryRequired | AuditWriteFailed | InvalidName | RoleNotFound | RoleConflict | MembershipNotFound
    | DatabaseError

  function Required(call: Call): Permission {
    if call.AssignRole? || call.RemoveRole? then TenantMembershipsManage else TenantRolesManage
  }

  function EventOf(actor: Actor, call: Call): RoleEvent {
    var of := (kind, target, permission) =>
      RoleEvent(kind, actor.user, actor.session, actor.membership, call.role, target, permission);
    match call
    case CreateRole(_, _, _) => of(RoleCreated, None, None)
    case UpdateRole(_, _, _) => of(RoleUpdated, None, None)
    case DisableRole(_, _) => of(RoleDisabled, None, None)
    case AssignPermission(_, p) => of(PermissionAssigned, None, Some(PermissionId(p)))
    case RemovePermission(_, p) => of(PermissionRemoved, None, Some(PermissionId(p)))
    case AssignRole(m, _) => of(MembershipAssigned, Some(m), None)
    case RemoveRole(m, _) => of(MembershipRemoved, Some(m), None)
  }

  function RowOf(actor: Actor, call: Call, draw: Draw): AuditRow {
    AuditRow(draw.event, draw.correlation, EventOf(actor, call))
  }

  predicate Blank(c: char) {
    c == ' ' || c == '\t' || c == '\n' || c == '\r'
  }

  predicate ValidName(name: string) {
    |name| <= 120 && exists k :: 0 <= k < |name| && !Blank(name[k])
  }

  /** What a call checks before it opens a transaction: its permission, and that one it names is a tenant's. */
  predicate Admitted(actor: Actor, call: Call) {
    && actor.permission == Required(call)
    && (call.AssignPermission? || call.RemovePermission? ==> TenantScoped(call.permission))
  }

  /** What a call checks of the name it stores before it stores it. */
  predicate Named(call: Call) {
    call.CreateRole? || call.UpdateRole? ==> ValidName(call.name)
  }

  /** Row-level security shows a call its own tenant's roles only. */
  predicate Visible(t: Tables, actor: Actor, role: nat) {
    role in t.roles && t.roles[role].tenant == actor.tenant
  }

  predicate KeyTaken(t: Tables, tenant: nat, key: string) {
    exists r :: r in t.roles && t.roles[r].tenant == tenant && t.roles[r].key == key
  }

  /** The order of a call's checks: which error it raises first, if any. */
  function Refusal(t: Tables, actor: Actor, call: Call, now: int): Option<Error> {
    var linked := Linked(t.directory, EventOf(actor, call), actor.membershipVersion, actor.tenant, now);
    if !Admitted(actor, call) then Some(BoundaryRequired)
    else
      match call
      case CreateRole(role, key, _) =>
        if !linked then Some(AuditWriteFailed)
        else if !Named(call) then Some(InvalidName)
        else if role in t.roles || KeyTaken(t, actor.tenant, key) then Some(RoleConflict)
        else None
      case UpdateRole(role, version, _) =>
        if !linked then Some(AuditWriteFailed)
        else if !Named(call) then Some(InvalidName)
        else if !Visible(t, actor, role) then Some(RoleNotFound)
        else if t.roles[role].version != version then Some(RoleConflict)
        else None
      case DisableRole(role, version) =>
        if !linked then Some(AuditWriteFailed)
        else if !Visible(t, actor, role) then Some(RoleNotFound)
        else if t.roles[role].version != version || t.roles[role].status != Active then Some(RoleConflict)
        else None
      case AssignPermission(role, _) =>
        if !Visible(t, actor, role) then Some(RoleNotFound)
        else if t.roles[role].status != Active then Some(RoleConflict)
        else if !linked then Some(AuditWriteFailed)
        else None
      case RemovePermission(role, _) =>
        if !Visible(t, actor, role) then Some(RoleNotFound)
        else if !linked then Some(AuditWriteFailed)
        else None
      case AssignRole(m, role) =>
        if !Visible(t, actor, role) then Some(RoleNotFound)
        else if t.roles[role].status != Active then Some(RoleConflict)
        else if !ActiveMembership(t.directory, m, actor.tenant) then Some(MembershipNotFound)
        else if !linked then Some(AuditWriteFailed)
        else None
      case RemoveRole(m, role) =>
        if !Visible(t, actor, role) then Some(RoleNotFound)
        else if !ActiveMembership(t.directory, m, actor.tenant) then Some(MembershipNotFound)
        else if !linked then Some(AuditWriteFailed)
        else None
  }

  /** Whether an accepted call changes anything; assigning what is there or removing what is not does not. */
  predicate Changes(t: Tables, actor: Actor, call: Call) {
    match call
    case AssignPermission(role, p) => Grant(actor.tenant, role, PermissionId(p)) !in t.grants
    case RemovePermission(role, p) => Grant(actor.tenant, role, PermissionId(p)) in t.grants
    case AssignRole(m, role) => Member(actor.tenant, m, role) !in t.members
    case RemoveRole(m, role) => Member(actor.tenant, m, role) in t.members
    case _ => true
  }

  /** The table change an accepted, changing call makes. */
  function Effect(t: Tables, actor: Actor, call: Call): Tables
    requires call.UpdateRole? || call.DisableRole? ==> call.role in t.roles
  {
    match call
    case CreateRole(role, key, name) => t.(roles := t.roles[role := RoleRow(role, actor.tenant, key, name, Active, 1)])
    case UpdateRole(role, _, name) =>
      t.(roles := t.roles[role := t.roles[role].(name := name, version := t.roles[role].version + 1)])
    case DisableRole(role, _) =>
      t.(roles := t.roles[role := t.roles[role].(status := Inactive, version := t.roles[role].version + 1)])
    case AssignPermission(role, p) => t.(grants := t.grants + {Grant(actor.tenant, role, PermissionId(p))})
    case RemovePermission(role, p) => t.(grants := t.grants - {Grant(actor.tenant, role, PermissionId(p))})
    case AssignRole(m, role) => t.(members := t.members + {Member(actor.tenant, m, role)})
    case RemoveRole(m, role) => t.(members := t.members - {Member(actor.tenant, m, role)})
  }

  predicate Proceeds(t: Tables, actor: Actor, call: Call, now: int) {
    Refusal(t, actor, call, now) == None && Changes(t, actor, call)
  }

  /** What the write statement itself demands of the tables, whatever was checked before it. */
  predicate Lands(t: Tables, actor: Actor, call: Call) {
    match call
    case CreateRole(role, key, _) => role !in t.roles && !KeyTaken(t, actor.tenant, key)
    case UpdateRole(role, version, _) => Visible(t, actor, role) && t.roles[role].version == version
    case DisableRole(role, version) => Visible(t, actor, role) && t.roles[role].version == version
      && t.roles[role].status == Active
    case AssignPermission(role, _) => Visible(t, actor, role) && Changes(t, actor, call)
    case AssignRole(_, role) => Visible(t, actor, role) && Changes(t, actor, call)
    case _ => Changes(t, actor, call)
  }

  /** The tables after a write that lands: changed, with exactly one event. */
  function Written(t: Tables, actor: Actor, call: Call, draw: Draw): Tables
    requires Lands(t, actor, call)
  {
    Effect(t, actor, call).(log := t.log + [Role(RowOf(actor, call, draw))])
  }

  /** The tables after a call: written, or as they were. */
  function AfterCall(t: Tables, actor: Actor, call: Call, draw: Draw): Tables {
    if Proceeds(t, actor, call, draw.now) then Written(t, actor, call, draw) else t
  }

  // ---- runs -------------------------------------------------------------------------------------------------

  /**
   A service call that commits; one overtaken between its checks and its write, of which only the write's own
   demands still hold, the identity rows it locked and what it checked of its arguments; one whose transaction is
   lost; or anything else the system does.
   */
  datatype Step =
    | Perform(actor: Actor, call: Call, draw: Draw)
    | Overtaken(actor: Actor, call: Call, draw: Draw)
    | Lost(actor: Actor, call: Call, draw: Draw)
    | Elsewhere(directory: Directory, id: nat)

  /** Whether an overtaken call still writes. */
  predicate StillWrites(t: Tables, actor: Actor, call: Call, now: int) {
    && Admitted(actor, call) && Named(call) && Lands(t, actor, call)
    && Linked(t.directory, EventOf(actor, call), actor.membershipVersion, actor.tenant, now)
  }

  function Next(t: Tables, step: Step): Tables {
    match step
    case Perform(actor, call, draw) => AfterCall(t, actor, call, draw)
    case Overtaken(actor, call, draw) =>
      if StillWrites(t, actor, call, draw.now) then Written(t, actor, call, draw) else t
    case Lost(_, _, _) => t
    case Elsewhere(directory, id) => t.(directory := directory, log := t.log + [Other(id)])
  }

  function Run(t: Tables, steps: seq<Step>): Tables
    decreases |steps|
  {
    if steps == [] then t else Run(Next(t, steps[0]), steps[1..])
  }

  // ---- replay -----------------------------------------------------------------------------------------------

  datatype RoleState = RoleState(status: RoleStatus, version: nat)

  /** What the log says the RBAC tables hold. */
  datatype Rebuilt = Rebuilt(roles: map<nat, RoleState>, grants: set<(nat, string)>, members: set<(nat, nat)>)

  const NOTHING := Rebuilt(map[], {}, {})

  /** Read one event; it names no tenant, key, display name or version. */
  function Apply(r: Rebuilt, e: RoleEvent): Rebuilt {
    match e.kind
    case RoleCreated => r.(roles := r.roles[e.role := RoleState(Active, 1)])
    case RoleUpdated =>
      if e.role in r.roles
        then r.(roles := r.roles[e.role := r.roles[e.role].(version := r.roles[e.role].version + 1)]) else r
    case RoleDisabled =>
      if e.role in r.roles then r.(roles := r.roles[e.role := RoleState(Inactive, r.roles[e.role].version + 1)]) else r
    case PermissionAssigned => if e.permission.Some? then r.(grants := r.grants + {(e.role, e.permission.value)}) else r
    case PermissionRemoved => if e.permission.Some? then r.(grants := r.grants - {(e.role, e.permission.value)}) else r
    case MembershipAssigned => if e.target.Some? then r.(members := r.members + {(e.target.value, e.role)}) else r
    case MembershipRemoved => if e.target.Some? then r.(members := r.members - {(e.target.value, e.role)}) else r
  }

  function Replay(log: seq<LogEntry>): Rebuilt {
    if log == [] then NOTHING
    else
      var before := Replay(log[..|log| - 1]);
      match log[|log| - 1]
      case Role(row) => Apply(before, row.event)
      case Other(_) => before
  }

  /** What the tables hold, read the same way. */
  function Project(t: Tables): Rebuilt {
    Rebuilt(map r | r in t.roles :: RoleState(t.roles[r].status, t.roles[r].version),
            set g | g in t.grants :: (g.role, g.permission),
            set m | m in t.members :: (m.membership, m.role))
  }

  /** Foreign keys: rows sit under their own id, and a relation row names a role of its own tenant. */
  predicate WellKeyed(t: Tables) {
    && (forall r | r in t.roles :: t.roles[r].id == r)
    && (forall g | g in t.grants :: g.role in t.roles && t.roles[g.role].tenant == g.tenant)
    && (forall m | m in t.members :: m.role in t.roles && t.roles[m.role].tenant == m.tenant)
  }

  lemma EffectKeyed(t: Tables, actor: Actor, call: Call)
    requires WellKeyed(t) && Lands(t, actor, call)
    ensures WellKeyed(Effect(t, actor, call))
  {
    hide Linked, ActiveMembership, ValidName, PermissionId, EventOf, KeyTaken;
  }

  /** The change a call makes to the tables is the change its event makes to the rebuilt state. */
  lemma EffectIsApply(t: Tables, actor: Actor, call: Call)
    requires WellKeyed(t) && Lands(t, actor, call)
    ensures Project(Effect(t, actor, call)) == Apply(Project(t), EventOf(actor, call))
  {
    hide KeyTaken;
  }

  lemma WrittenReplays(t: Tables, actor: Actor, call: Call, draw: Draw)
    requires WellKeyed(t) && Replay(t.log) == Project(t) && Lands(t, actor, call)
    ensures var after := Written(t, actor, call, draw);
      WellKeyed(after) && Replay(after.log) == Project(after)
  {
    EffectKeyed(t, actor, call);
    EffectIsApply(t, actor, call);
    hide Lands, Effect, EventOf, Apply;
    var log := t.log + [Role(RowOf(actor, call, draw))];
    assert log[..|log| - 1] == t.log;
  }

  /** An accepted, changing call meets its write's own demands. */
  lemma ProceedsLands(t: Tables, actor: Actor, call: Call, now: int)
    requires Proceeds(t, actor, call, now)
    ensures Lands(t, actor, call)
  {
    hide Linked, ActiveMembership, ValidName, PermissionId, EventOf, KeyTaken;
  }

  lemma StepReplays(t: Tables, step: Step)
    requires WellKeyed(t) && Replay(t.log) == Project(t)
    ensures WellKeyed(Next(t, step)) && Replay(Next(t, step).log) == Project(Next(t, step))
  {
    match step {
      case Perform(actor, call, draw) =>
        if Proceeds(t, actor, call, draw.now) {
          ProceedsLands(t, actor, call, draw.now);
          WrittenReplays(t, actor, call, draw);
          hide Proceeds, Effect, Project, EventOf, Apply, WellKeyed, Lands, Written;
        }
      case Overtaken(actor, call, draw) =>
        if StillWrites(t, actor, call, draw.now) {
          WrittenReplays(t, actor, call, draw);
          hide Proceeds, Effect, Project, EventOf, Apply, WellKeyed, Lands, Written;
        }
      case Lost(_, _, _) =>
      case Elsewhere(_, id) =>
        var log := t.log + [Other(id)];
        assert log[..|log| - 1] == t.log;
    }
  }

  lemma {:induction false} RunReplays(t: Tables, steps: seq<Step>)
    requires WellKeyed(t) && Replay(t.log) == Project(t)
    ensures WellKeyed(Run(t, steps)) && Replay(Run(t, steps).log) == Project(Run(t, steps))
    decreases |steps|
  {
    if steps != [] {
      StepReplays(t, steps[0]);
      hide Next, WellKeyed, Replay, Project;
      RunReplays(Next(t, steps[0]), steps[1..]);
    }
  }

  /** A system with no roles yet. */
  function Unused(directory: Directory): Tables {
    Tables(map[], {}, {}, [], directory)
  }

  /** Whatever is called, in whatever order, overtaken or lost, the audit log alone rebuilds the RBAC tables. */
  lemma LogRebuildsTables(directory: Directory, steps: seq<Step>)
    ensures var end := Run(Unused(directory), steps); Replay(end.log) == Project(end)
  {
    var t := Unused(directory);
    assert Replay(t.log) == Project(t);
    RunReplays(t, steps);
  }

  // ---- versions and uniqueness -------------------------------------------------------------------------------

  predicate Concerns(entry: LogEntry, role: nat, kinds: set<RoleEventType>) {
    entry.Role? && entry.row.event.role == role && entry.row.event.kind in kinds
  }

  /** How many events of these kinds the log holds for a role. */
  function Count(log: seq<LogEntry>, role: nat, kinds: set<RoleEventType>): nat {
    if log == [] then 0
    else Count(log[..|log| - 1], role, kinds) + (if Concerns(log[|log| - 1], role, kinds) then 1 else 0)
  }

  lemma CountAppended(log: seq<LogEntry>, entry: LogEntry, role: nat, kinds: set<RoleEventType>)
    ensures Count(log + [entry], role, kinds) == Count(log, role, kinds)
      + (if Concerns(entry, role, kinds) then 1 else 0)
  {
    var longer := log + [entry];
    assert longer[..|longer| - 1] == log;
  }

  const EDITS := {RoleUpdated, RoleDisabled}

  /** One role's row against its events: created once, and one version for each edit. */
  predicate Versioned(t: Tables, role: nat) {
    if role in t.roles
    then Count(t.log, role, {RoleCreated}) == 1 && t.roles[role].version == 1 + Count(t.log, role, EDITS)
    else Count(t.log, role, {RoleCreated}) == 0 && Count(t.log, role, EDITS) == 0
  }

  lemma WrittenVersions(t: Tables, actor: Actor, call: Call, draw: Draw, role: nat)
    requires WellKeyed(t) && Lands(t, actor, call) && Versioned(t, role)
    ensures Versioned(Written(t, actor, call, draw), role)
  {
    hide KeyTaken, PermissionId, Count;
    var entry := Role(RowOf(actor, call, draw));
    CountAppended(t.log, entry, role, {RoleCreated});
    CountAppended(t.log, entry, role, EDITS);
  }

  lemma StepVersions(t: Tables, step: Step, role: nat)
    requires WellKeyed(t) && Versioned(t, role)
    ensures Versioned(Next(t, step), role)
  {
    match step {
      case Perform(actor, call, draw) =>
        if Proceeds(t, actor, call, draw.now) {
          ProceedsLands(t, actor, call, draw.now);
          WrittenVersions(t, actor, call, draw, role);
          hide Proceeds, Effect, EventOf, Versioned, Lands, Written;
        }
      case Overtaken(actor, call, draw) =>
        if StillWrites(t, actor, call, draw.now) {
          WrittenVersions(t, actor, call, draw, role);
          hide Proceeds, Effect, EventOf, Versioned, Lands, Written;
        }
      case Lost(_, _, _) =>
      case Elsewhere(_, id) =>
        CountAppended(t.log, Other(id), role, {RoleCreated});
        CountAppended(t.log, Other(id), role, EDITS);
        hide Count;
    }
  }

  lemma {:induction false} RunVersions(t: Tables, steps: seq<Step>, role: nat)
    requires WellKeyed(t) && Replay(t.log) == Project(t) && Versioned(t, role)
    ensures Versioned(Run(t, steps), role)
    decreases |steps|
  {
    if steps != [] {
      StepReplays(t, steps[0]);
      StepVersions(t, steps[0], role);
      hide Next, WellKeyed, Replay, Project, Versioned;
      RunVersions(Next(t, steps[0]), steps[1..], role);
    }
  }

  /** Each role has one creation event and a version of one plus its updates and disablings; other ids have none. */
  lemma VersionsCountEdits(directory: Directory, steps: seq<Step>, role: nat)
    ensures Versioned(Run(Unused(directory), steps), role)
  {
    var t := Unused(directory);
    assert Replay(t.log) == Project(t);
    RunVersions(t, steps, role);
  }
}

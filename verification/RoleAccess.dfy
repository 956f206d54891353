/**
 Who may change roles and what the tables may then hold, on the columns themselves: the caller's standing when an
 event is written, the permissions a tenant role can carry, and what each error says about the call.
 */
module RoleAccess {
  import opened Prelude
  import I = RoleIntents
  import opened RoleAdministration
  import C = RoleConcurrency

  /** The permissions of the catalogue that a tenant role may carry. */
  const TENANT_PERMISSIONS := [
    "tenant.memberships.read", "tenant.memberships.manage", "tenant.roles.read", "tenant.roles.manage",
    "tenant.user_ui_settings.manage_self", "tenant.ui_settings.manage"]

  lemma TenantScopedIff(p: Permission)
    ensures TenantScoped(p) <==> PermissionId(p) in TENANT_PERMISSIONS
  {
    var id := PermissionId(p);
    assert forall k | k in TENANT_PERMISSIONS :: k[0] == 't';
    match p
    case TenantMembershipsRead => assert TENANT_PERMISSIONS[0] == id; assert id[..7] == "tenant.";
    case TenantMembershipsManage => assert TENANT_PERMISSIONS[1] == id; assert id[..7] == "tenant.";
    case TenantRolesRead => assert TENANT_PERMISSIONS[2] == id; assert id[..7] == "tenant.";
    case TenantRolesManage => assert TENANT_PERMISSIONS[3] == id; assert id[..7] == "tenant.";
    case TenantUserUiSettingsManageSelf => assert TENANT_PERMISSIONS[4] == id; assert id[..7] == "tenant.";
    case TenantUiSettingsManage => assert TENANT_PERMISSIONS[5] == id; assert id[..7] == "tenant.";
    case _ => assert id[0] == 'p';
  }

  /** No two permissions share an identifier, so a grant is of one permission. */
  lemma PermissionIdsDistinct(p: Permission, q: Permission)
    ensures PermissionId(p) == PermissionId(q) <==> p == q
  {
    var a, b := PermissionId(p), PermissionId(q);
    if p != q && |a| == |b| {
      assert a[0] != b[0] || a[7] != b[7];
    }
  }

  // ---- the caller's standing --------------------------------------------------------------------------------------

  /** The membership a call is about, if it is about one. */
  function TargetOf(call: Call): Option<nat> {
    match call
    case AssignRole(m, _) => Some(m)
    case RemoveRole(m, _) => Some(m)
    case _ => None
  }

  /** The directory vouches for the caller: a live session of an active user, with an active membership selected. */
  predicate InGoodStanding(d: Directory, actor: Actor, target: Option<nat>, now: int) {
    && actor.user in d.users && d.users[actor.user].active
    && actor.session in d.sessions
    && (var s := d.sessions[actor.session];
        && s.user == actor.user && !s.revoked && now < s.idleExpiresAt && now < s.absoluteExpiresAt
        && s.securityVersion == d.users[actor.user].securityVersion
        && s.selected == Some(actor.membership) && s.selectedVersion == Some(actor.membershipVersion))
    && actor.membership in d.memberships
    && d.memberships[actor.membership] == MembershipRow(actor.user, actor.tenant, true, actor.membershipVersion)
    && actor.tenant in d.activeTenants
    && (target.Some? ==>
          && target.value in d.memberships
          && d.memberships[target.value].tenant == actor.tenant && d.memberships[target.value].active)
  }

  lemma LinkedIff(d: Directory, actor: Actor, call: Call, now: int)
    ensures Linked(d, EventOf(actor, call), actor.membershipVersion, actor.tenant, now)
      <==> InGoodStanding(d, actor, TargetOf(call), now)
  {
    hide PermissionId;
  }

  /**
   A caller in good standing is never told that the audit event could not be written; one who is not is always
   refused, and by the three calls on roles themselves with exactly that error.
   */
  lemma StandingDecides(t: Tables, actor: Actor, call: Call, now: int)
    ensures InGoodStanding(t.directory, actor, TargetOf(call), now) ==>
      Refusal(t, actor, call, now) != Some(AuditWriteFailed)
    ensures !InGoodStanding(t.directory, actor, TargetOf(call), now) ==> Refusal(t, actor, call, now).Some?
    ensures !InGoodStanding(t.directory, actor, TargetOf(call), now) && actor.permission == TenantRolesManage ==>
      (call.CreateRole? || call.UpdateRole? || call.DisableRole? ==>
         Refusal(t, actor, call, now) == Some(AuditWriteFailed))
  {
    LinkedIff(t.directory, actor, call, now);
    hide Linked, InGoodStanding, EventOf, TenantScoped, ActiveMembership, ValidName, KeyTaken;
  }

  /** Blank as the source reads it: nothing but spaces, tabs and line ends. */
  predicate OnlyWhitespace(name: string) {
    forall k | 0 <= k < |name| :: name[k] in " \t\n\r"
  }

  lemma ValidNameIff(name: string)
    ensures ValidName(name) <==> |name| <= 120 && !OnlyWhitespace(name)
  {
    assert forall c: char :: Blank(c) <==> c in " \t\n\r";
  }

  /** An active membership of an active user in an active tenant. */
  predicate LiveMember(d: Directory, membership: nat, tenant: nat) {
    && membership in d.memberships && tenant in d.activeTenants
    && (var m := d.memberships[membership];
        m.tenant == tenant && m.active && m.user in d.users && d.users[m.user].active)
  }

  /** Each error is raised only for its reason, and a call is accepted only when none of the reasons is there. */
  lemma ErrorsMean(t: Tables, actor: Actor, call: Call, now: int)
    ensures var mine := call.role in t.roles && t.roles[call.role].tenant == actor.tenant;
      match Refusal(t, actor, call, now)
      case Some(BoundaryRequired) =>
        || actor.permission != (if TargetOf(call).Some? then TenantMembershipsManage else TenantRolesManage)
        || ((call.AssignPermission? || call.RemovePermission?)
            && PermissionId(call.permission) !in TENANT_PERMISSIONS)
      case Some(InvalidName) =>
        (call.CreateRole? || call.UpdateRole?) && (|call.name| > 120 || OnlyWhitespace(call.name))
      case Some(RoleNotFound) => !call.CreateRole? && !mine
      case Some(RoleConflict) =>
        (match call
         case CreateRole(role, key, _) =>
           role in t.roles || exists r :: r in t.roles && t.roles[r].tenant == actor.tenant && t.roles[r].key == key
         case UpdateRole(_, version, _) => mine && t.roles[call.role].version != version
         case DisableRole(_, version) =>
           mine && (t.roles[call.role].version != version || t.roles[call.role].status == I.Inactive)
         case _ => (call.AssignPermission? || call.AssignRole?) && mine && t.roles[call.role].status == I.Inactive)
      case Some(MembershipNotFound) =>
        TargetOf(call).Some? && !LiveMember(t.directory, TargetOf(call).value, actor.tenant)
      case Some(AuditWriteFailed) => !InGoodStanding(t.directory, actor, TargetOf(call), now)
      case Some(DatabaseError) => false
      case None =>
        && actor.permission == (if TargetOf(call).Some? then TenantMembershipsManage else TenantRolesManage)
        && InGoodStanding(t.directory, actor, TargetOf(call), now)
        && (match call
            case CreateRole(role, key, name) =>
              && role !in t.roles && |name| <= 120 && !OnlyWhitespace(name)
              && forall r | r in t.roles && t.roles[r].tenant == actor.tenant :: t.roles[r].key != key
            case UpdateRole(role, version, name) =>
              mine && t.roles[role].version == version && |name| <= 120 && !OnlyWhitespace(name)
            case DisableRole(role, version) =>
              mine && t.roles[role].version == version && t.roles[role].status == I.Active
            case AssignPermission(role, p) =>
              mine && t.roles[role].status == I.Active && PermissionId(p) in TENANT_PERMISSIONS
            case RemovePermission(_, p) => mine && PermissionId(p) in TENANT_PERMISSIONS
            case AssignRole(_, role) => mine && t.roles[role].status == I.Active
            case RemoveRole(_, _) => mine)
        && (TargetOf(call).Some? ==> LiveMember(t.directory, TargetOf(call).value, actor.tenant))
  {
    LinkedIff(t.directory, actor, call, now);
    if call.CreateRole? || call.UpdateRole? {
      ValidNameIff(call.name);
    }
    if call.AssignPermission? || call.RemovePermission? {
      TenantScopedIff(call.permission);
    }
    hide Linked, InGoodStanding, EventOf, TenantScoped, ValidName, OnlyWhitespace, PermissionId;
  }

  /** Which of several reasons is told: a relation's role, then its membership, before the caller's standing. */
  lemma ErrorsOrdered(t: Tables, actor: Actor, call: Call, now: int)
    requires actor.permission == (if TargetOf(call).Some? then TenantMembershipsManage else TenantRolesManage)
    requires call.AssignPermission? || call.RemovePermission? ==> PermissionId(call.permission) in TENANT_PERMISSIONS
    ensures var mine := call.role in t.roles && t.roles[call.role].tenant == actor.tenant;
      match call
      case CreateRole(_, _, name) =>
        InGoodStanding(t.directory, actor, None, now) && (|name| > 120 || OnlyWhitespace(name)) ==>
          Refusal(t, actor, call, now) == Some(InvalidName)
      case UpdateRole(_, _, name) =>
        InGoodStanding(t.directory, actor, None, now) ==>
          Refusal(t, actor, call, now) ==
            if |name| > 120 || OnlyWhitespace(name) then Some(InvalidName)
            else if !mine then Some(RoleNotFound)
            else if t.roles[call.role].version != call.expectedVersion then Some(RoleConflict) else None
      case DisableRole(_, _) =>
        InGoodStanding(t.directory, actor, None, now) && !mine ==>
          Refusal(t, actor, call, now) == Some(RoleNotFound)
      case AssignPermission(role, _) =>
        && (!mine ==> Refusal(t, actor, call, now) == Some(RoleNotFound))
        && (mine && t.roles[role].status == I.Inactive ==> Refusal(t, actor, call, now) == Some(RoleConflict))
      case RemovePermission(_, _) => !mine ==> Refusal(t, actor, call, now) == Some(RoleNotFound)
      case AssignRole(m, role) =>
        && (!mine ==> Refusal(t, actor, call, now) == Some(RoleNotFound))
        && (mine && t.roles[role].status == I.Inactive ==> Refusal(t, actor, call, now) == Some(RoleConflict))
        && (mine && t.roles[role].status == I.Active && !LiveMember(t.directory, m, actor.tenant) ==>
              Refusal(t, actor, call, now) == Some(MembershipNotFound))
      case RemoveRole(m, _) =>
        && (!mine ==> Refusal(t, actor, call, now) == Some(RoleNotFound))
        && (mine && !LiveMember(t.directory, m, actor.tenant) ==>
              Refusal(t, actor, call, now) == Some(MembershipNotFound))
  {
    LinkedIff(t.directory, actor, call, now);
    if call.CreateRole? || call.UpdateRole? {
      ValidNameIff(call.name);
    }
    if call.AssignPermission? || call.RemovePermission? {
      TenantScopedIff(call.permission);
    }
    hide Linked, InGoodStanding, EventOf, TenantScoped, ValidName, OnlyWhitespace, PermissionId;
  }

  /** A roles manager in good standing may grant each of the six to any active role of the tenant. */
  lemma TenantPermissionsGrantable(t: Tables, actor: Actor, role: nat, p: Permission, now: int)
    requires PermissionId(p) in TENANT_PERMISSIONS && actor.permission == TenantRolesManage
    requires InGoodStanding(t.directory, actor, None, now)
    requires role in t.roles && t.roles[role].tenant == actor.tenant && t.roles[role].status == I.Active
    ensures Refusal(t, actor, AssignPermission(role, p), now) == None
    ensures Refusal(t, actor, RemovePermission(role, p), now) == None
  {
    TenantScopedIff(p);
    LinkedIff(t.directory, actor, AssignPermission(role, p), now);
    LinkedIff(t.directory, actor, RemovePermission(role, p), now);
    hide Linked, InGoodStanding, EventOf, PermissionId, TenantScoped;
  }

  /** The event a call writes, field by field. */
  lemma EventNames(actor: Actor, call: Call)
    ensures var e := EventOf(actor, call);
      && e.user == actor.user && e.session == actor.session && e.membership == actor.membership && e.role == call.role
      && match call
         case CreateRole(_, _, _) => e.kind == I.RoleCreated && e.target == None && e.permission == None
         case UpdateRole(_, _, _) => e.kind == I.RoleUpdated && e.target == None && e.permission == None
         case DisableRole(_, _) => e.kind == I.RoleDisabled && e.target == None && e.permission == None
         case AssignPermission(_, p) =>
           e.kind == I.PermissionAssigned && e.target == None && e.permission == Some(PermissionId(p))
         case RemovePermission(_, p) =>
           e.kind == I.PermissionRemoved && e.target == None && e.permission == Some(PermissionId(p))
         case AssignRole(m, _) => e.kind == I.MembershipAssigned && e.target == Some(m) && e.permission == None
         case RemoveRole(m, _) => e.kind == I.MembershipRemoved && e.target == Some(m) && e.permission == None
  {
    hide PermissionId;
  }

  /** An accepted call writes exactly its row and one event, or neither when there is nothing to change. */
  lemma AcceptedCallsWrite(t: Tables, actor: Actor, call: Call, draw: Draw)
    requires Refusal(t, actor, call, draw.now) == None
    ensures var after := AfterCall(t, actor, call, draw);
      var written := t.log + [Role(I.AuditRow(draw.event, draw.correlation, EventOf(actor, call)))];
      match call
      case CreateRole(role, key, name) =>
        after == t.(roles := t.roles[role := I.RoleRow(role, actor.tenant, key, name, I.Active, 1)], log := written)
      case UpdateRole(role, version, name) =>
        && role in t.roles
        && var o := t.roles[role];
           after == t.(log := written,
             roles := t.roles[role := I.RoleRow(o.id, actor.tenant, o.key, name, o.status, o.version + 1)])
      case DisableRole(role, version) =>
        && role in t.roles
        && var o := t.roles[role];
           after == t.(log := written,
             roles := t.roles[role := I.RoleRow(o.id, actor.tenant, o.key, o.name, I.Inactive, o.version + 1)])
      case AssignPermission(role, p) =>
        var g := I.Grant(actor.tenant, role, PermissionId(p));
        after == if g in t.grants then t else t.(grants := t.grants + {g}, log := written)
      case RemovePermission(role, p) =>
        var g := I.Grant(actor.tenant, role, PermissionId(p));
        after == if g in t.grants then t.(grants := t.grants - {g}, log := written) else t
      case AssignRole(m, role) =>
        var g := I.Member(actor.tenant, m, role);
        after == if g in t.members then t else t.(members := t.members + {g}, log := written)
      case RemoveRole(m, role) =>
        var g := I.Member(actor.tenant, m, role);
        after == if g in t.members then t.(members := t.members - {g}, log := written) else t
  {
    VisibleRole(t, actor, call, draw.now);
    hide Refusal, PermissionId, EventOf;
  }

  lemma VisibleRole(t: Tables, actor: Actor, call: Call, now: int)
    requires Refusal(t, actor, call, now) == None
    ensures call.UpdateRole? || call.DisableRole? ==>
      call.role in t.roles && t.roles[call.role].tenant == actor.tenant
    ensures Changes(t, actor, call) ==> Proceeds(t, actor, call, now)
  {
    ErrorsMean(t, actor, call, now);
    hide Refusal, InGoodStanding, LiveMember, OnlyWhitespace, PermissionId;
  }

  // ---- what the tables hold after any run -------------------------------------------------------------------------

  /** Tenant permissions only, proper names, and one role a tenant under each key. */
  ghost predicate Governed(t: Tables) {
    && (forall g | g in t.grants :: g.permission in TENANT_PERMISSIONS)
    && (forall r | r in t.roles :: |t.roles[r].name| <= 120 && !OnlyWhitespace(t.roles[r].name))
    && (forall q, r | q in t.roles && r in t.roles :: t.roles[q].tenant == t.roles[r].tenant ==>
          t.roles[q].key == t.roles[r].key ==> q == r)
  }

  lemma EffectGoverned(t: Tables, actor: Actor, call: Call)
    requires Governed(t) && Lands(t, actor, call) && Admitted(actor, call) && Named(call)
    ensures Governed(Effect(t, actor, call))
  {
    if call.CreateRole? || call.UpdateRole? {
      ValidNameIff(call.name);
    }
    if call.AssignPermission? || call.RemovePermission? {
      TenantScopedIff(call.permission);
    }
    hide ValidName, TenantScoped, PermissionId, OnlyWhitespace;
  }

  /** The version a call was given by its caller. */
  predicate SawVersion(t: Tables, call: Call) {
    match call
    case UpdateRole(role, version, _) => role in t.roles && t.roles[role].version == version
    case DisableRole(role, version) =>
      role in t.roles && t.roles[role].version == version && t.roles[role].status == I.Active
    case _ => true
  }

  /** An event is written for a caller in good standing at the time the call read, at the version it gave. */
  predicate WrittenInStanding(t: Tables, step: Step) {
    match step
    case Perform(actor, call, draw) =>
      Next(t, step).log == t.log
      || (Next(t, step).log == t.log + [Role(RowOf(actor, call, draw))]
          && SawVersion(t, call) && InGoodStanding(t.directory, actor, TargetOf(call), draw.now))
    case Overtaken(actor, call, draw) =>
      Next(t, step).log == t.log
      || (Next(t, step).log == t.log + [Role(RowOf(actor, call, draw))]
          && SawVersion(t, call) && InGoodStanding(t.directory, actor, TargetOf(call), draw.now))
    case Lost(_, _, _) => Next(t, step).log == t.log
    case Elsewhere(_, id) => Next(t, step).log == t.log + [Other(id)]
  }

  lemma StepGoverned(t: Tables, step: Step)
    requires Governed(t)
    ensures Governed(Next(t, step)) && WrittenInStanding(t, step)
  {
    match step
    case Perform(actor, call, draw) =>
      if Proceeds(t, actor, call, draw.now) {
        ProceedsLands(t, actor, call, draw.now);
        ProceedsNamed(t, actor, call, draw.now);
        EffectGoverned(t, actor, call);
        StandingDecides(t, actor, call, draw.now);
        LandsAtVersion(t, actor, call);
      }
      hide Governed, Effect, Refusal, Changes, Lands, InGoodStanding, EventOf, SawVersion;
    case Overtaken(actor, call, draw) =>
      if StillWrites(t, actor, call, draw.now) {
        EffectGoverned(t, actor, call);
        LinkedIff(t.directory, actor, call, draw.now);
        LandsAtVersion(t, actor, call);
      }
      hide Governed, Effect, Lands, InGoodStanding, EventOf, Admitted, Named, Linked, SawVersion;
    case Lost(_, _, _) =>
    case Elsewhere(_, _) =>
  }

  lemma LandsAtVersion(t: Tables, actor: Actor, call: Call)
    requires Lands(t, actor, call)
    ensures SawVersion(t, call)
    ensures call.UpdateRole? || call.DisableRole? ==>
      Effect(t, actor, call).roles[call.role].version == t.roles[call.role].version + 1
  {
    hide KeyTaken, PermissionId;
  }

  lemma ProceedsNamed(t: Tables, actor: Actor, call: Call, now: int)
    requires Proceeds(t, actor, call, now)
    ensures Admitted(actor, call) && Named(call)
  {
    hide Admitted, ValidName, Linked, EventOf, KeyTaken, ActiveMembership;
  }

  /** The tables before the i-th step of a run. */
  function Before(t: Tables, steps: seq<Step>, i: nat): Tables
    requires i <= |steps|
    decreases i
  {
    if i == 0 then t else Before(Next(t, steps[0]), steps[1..], i - 1)
  }

  /**
   From an empty system on, whatever is called, overtaken or lost: every permission row is one of the six tenant
   permissions, names are proper, keys unique, and every role event was written for a caller whose session was
   unrevoked, unexpired and current at the time the call read, an edit's at the version its caller had read.
   */
  lemma RunsGoverned(directory: Directory, steps: seq<Step>, i: nat)
    requires i < |steps|
    ensures Governed(Run(Unused(directory), steps))
    ensures WrittenInStanding(Before(Unused(directory), steps, i), steps[i])
  {
    hide Governed, WrittenInStanding, Before, Run;
    assert Governed(Unused(directory)) by { NothingGoverned(directory); }
    RunGoverned(Unused(directory), steps);
    BeforeGoverned(Unused(directory), steps, i);
    StepGoverned(Before(Unused(directory), steps, i), steps[i]);
  }

  lemma NothingGoverned(directory: Directory)
    ensures Governed(Unused(directory))
  {
  }

  lemma {:induction false} RunGoverned(t: Tables, steps: seq<Step>)
    requires Governed(t)
    ensures Governed(Run(t, steps))
    decreases |steps|
  {
    if steps != [] {
      StepGoverned(t, steps[0]);
      hide Governed, Next, WrittenInStanding;
      RunGoverned(Next(t, steps[0]), steps[1..]);
    }
  }

  lemma {:induction false} BeforeGoverned(t: Tables, steps: seq<Step>, i: nat)
    requires Governed(t) && i <= |steps|
    ensures Governed(Before(t, steps, i))
    decreases i
  {
    if i > 0 {
      StepGoverned(t, steps[0]);
      hide Governed, Next, WrittenInStanding;
      BeforeGoverned(Next(t, steps[0]), steps[1..], i - 1);
    }
  }

  // ---- the same, with statements interleaved ----------------------------------------------------------------------

  lemma CommitGoverned(s: C.Shared, tx: nat)
    requires C.Good(s) && C.Legal(s, C.Commit(tx)) && Governed(s.tables)
    ensures Governed(C.Next(s, C.Commit(tx)).tables)
  {
    C.CommitLeaves(s, tx);
    var r := s.running[tx];
    if r.stage == C.Recorded {
      RunningNamed(s, tx);
      EffectGoverned(s.tables, r.actor, r.call);
    }
    hide C.Good, C.Legal, C.Next, Governed, Effect, Lands;
  }

  lemma RunningNamed(s: C.Shared, tx: nat)
    requires C.Linking(s) && tx in s.running
    ensures var r := s.running[tx];
      && Admitted(r.actor, r.call)
      && (C.HoldsLocks(r) ==> Named(r.call))
      && (r.stage != C.Begun ==> InGoodStanding(s.tables.directory, r.actor, TargetOf(r.call), r.draw.now))
  {
    var r := s.running[tx];
    assert C.Joined(s.tables.directory, r);
    LinkedIff(s.tables.directory, r.actor, r.call, r.draw.now);
    hide Admitted, Named, InGoodStanding, Linked, EventOf;
  }

  /** An edit is committed only at the version its caller had read, and leaves the next: none is lost to another. */
  lemma CommitsAtVersion(s: C.Shared, tx: nat)
    requires C.Good(s) && C.Legal(s, C.Commit(tx)) && s.running[tx].stage == C.Recorded
    ensures var call, n := s.running[tx].call, C.Next(s, C.Commit(tx));
      && SawVersion(s.tables, call)
      && (call.UpdateRole? || call.DisableRole? ==>
            call.role in n.tables.roles && n.tables.roles[call.role].version == call.expectedVersion + 1)
  {
    C.CommitLeaves(s, tx);
    LandsAtVersion(s.tables, s.running[tx].actor, s.running[tx].call);
    hide C.Good, C.Next, C.Legal, Lands;
  }

  /** Only a commit moves the role tables. */
  lemma OthersKeepTables(s: C.Shared, step: C.Step)
    requires C.Legal(s, step) && !step.Commit?
    ensures var n := C.Next(s, step);
      n.tables.roles == s.tables.roles && n.tables.grants == s.tables.grants
  {
    hide Lands, C.ChangeOf, I.Prepare, I.Attest, I.Consume, I.Cancel, LinksHold, C.IdInUse, C.Identified, C.Blocked;
  }

  /** Arming succeeds exactly for a caller in good standing. */
  lemma ArmsIff(s: C.Shared, tx: nat)
    requires C.Good(s) && C.Legal(s, C.Arm(tx))
    ensures var r, n := s.running[tx], C.Next(s, C.Arm(tx));
      (tx in n.running && n.running[tx].stage == C.Armed && tx in n.intents)
      <==> InGoodStanding(s.tables.directory, r.actor, TargetOf(r.call), r.draw.now)
  {
    C.ArmLeaves(s, tx);
    var r := s.running[tx];
    LinkedIff(s.tables.directory, r.actor, r.call, r.draw.now);
    hide C.Good, C.Next, InGoodStanding, Linked, EventOf;
  }

  /** A row joins the journal while its caller is still in good standing, and as the transaction's own event. */
  predicate JournaledInStanding(s: C.Shared, step: C.Step)
    requires C.Legal(s, step)
  {
    C.Next(s, step).journal == s.journal
    || (step.Settle?
        && var r := s.running[step.tx];
        && C.Next(s, step).journal == s.journal + [C.Entry(step.tx, RowOf(r.actor, r.call, r.draw))]
        && InGoodStanding(s.tables.directory, r.actor, TargetOf(r.call), r.draw.now))
  }

  lemma JournalStanding(s: C.Shared, step: C.Step)
    requires C.Good(s) && C.Legal(s, step)
    ensures JournaledInStanding(s, step)
  {
    if step.Settle? {
      C.SettleLeaves(s, step.tx);
      RunningNamed(s, step.tx);
      hide C.Good, C.Next, InGoodStanding, C.IdInUse, RowOf;
    } else {
      OthersKeepJournal(s, step);
      hide C.Good, C.Next;
    }
  }

  lemma OthersKeepJournal(s: C.Shared, step: C.Step)
    requires C.Legal(s, step) && !step.Settle?
    ensures C.Next(s, step).journal == s.journal
  {
    hide Lands, C.ChangeOf, I.Prepare, I.Attest, C.Identified, C.Blocked, C.Visibly, Admitted, Named;
  }

  predicate Seen(s: C.Shared, tx: nat) {
    tx in s.committed || tx in s.running
  }

  /** No two audit rows of committed or open transactions carry the same identifier. */
  ghost predicate IdsUnique(s: C.Shared) {
    forall j, k | 0 <= j < k < |s.journal| && Seen(s, s.journal[j].tx) && Seen(s, s.journal[k].tx) ::
      s.journal[j].row.id != s.journal[k].row.id
  }

  lemma StepKeepsIds(s: C.Shared, step: C.Step)
    requires C.Good(s) && C.Legal(s, step) && IdsUnique(s)
    ensures IdsUnique(C.Next(s, step))
  {
    if step.Settle? {
      C.SettleLeaves(s, step.tx);
      SettleKeepsIds(s, step.tx);
      hide C.Good, C.Next, C.Legal;
    } else {
      OthersKeepJournal(s, step);
      OthersSeeNoMore(s, step);
      hide C.Good, C.Next, C.Legal, Seen;
    }
  }

  lemma SettleKeepsIds(s: C.Shared, tx: nat)
    requires IdsUnique(s) && tx in s.running
    ensures s.running[tx].stage == C.Unchanged ==>
      IdsUnique(C.Advance(s, tx, C.Released, s.intents - {tx}))
    ensures C.IdInUse(s, s.running[tx].draw.event) ==> IdsUnique(C.Abort(s, tx))
    ensures !C.IdInUse(s, s.running[tx].draw.event) ==> IdsUnique(C.Recording(s, tx))
  {
    hide EventOf;
  }

  lemma OthersSeeNoMore(s: C.Shared, step: C.Step)
    requires C.Journaled(s) && C.Legal(s, step) && !step.Settle?
    ensures forall k | 0 <= k < |s.journal| && Seen(C.Next(s, step), s.journal[k].tx) :: Seen(s, s.journal[k].tx)
  {
    hide Lands, C.ChangeOf, I.Prepare, I.Attest, C.Identified, C.Blocked, C.Visibly, Admitted, Named, C.EventRow;
  }

  /** The shared state before the i-th statement of a run. */
  function Reached(s: C.Shared, steps: seq<C.Step>, i: nat): C.Shared
    requires C.LegalRun(s, steps) && i <= |steps|
    decreases i
  {
    if i == 0 then s else Reached(C.Next(s, steps[0]), steps[1..], i - 1)
  }

  lemma {:induction false} ReachedGood(s: C.Shared, steps: seq<C.Step>, i: nat)
    requires C.LegalRun(s, steps) && i <= |steps| && C.Good(s) && Governed(s.tables) && IdsUnique(s)
    ensures var n := Reached(s, steps, i); C.Good(n) && Governed(n.tables) && IdsUnique(n)
    ensures i < |steps| ==> C.Legal(Reached(s, steps, i), steps[i])
    decreases i
  {
    hide C.Good, Governed, C.Next, C.Legal, IdsUnique;
    if i > 0 {
      C.StepGood(s, steps[0]);
      StepKeepsIds(s, steps[0]);
      StepKeepsGoverned(s, steps[0]);
      ReachedGood(C.Next(s, steps[0]), steps[1..], i - 1);
    }
  }

  lemma StepKeepsGoverned(s: C.Shared, step: C.Step)
    requires C.Good(s) && C.Legal(s, step) && Governed(s.tables)
    ensures Governed(C.Next(s, step).tables)
  {
    if step.Commit? {
      CommitGoverned(s, step.tx);
    } else {
      OthersKeepTables(s, step);
      hide C.Good, C.Next, C.Legal, OnlyWhitespace;
    }
  }

  /**
   Over any interleaving of statements: the committed tables hold tenant permissions only, proper names and unique
   keys, audit identifiers are unique, and every event row was written while its caller was in good standing.
   */
  lemma InterleavedRunsGoverned(directory: Directory, steps: seq<C.Step>, i: nat)
    requires C.LegalRun(C.Idle(directory), steps) && i < |steps|
    ensures Governed(Reached(C.Idle(directory), steps, i).tables) && IdsUnique(Reached(C.Idle(directory), steps, i))
    ensures C.Legal(Reached(C.Idle(directory), steps, i), steps[i])
    ensures JournaledInStanding(Reached(C.Idle(directory), steps, i), steps[i])
  {
    hide C.LegalRun, Reached, Governed, JournaledInStanding, IdsUnique;
    IdleGood(directory);
    hide C.Good;
    ReachedGood(C.Idle(directory), steps, i);
    JournalStanding(Reached(C.Idle(directory), steps, i), steps[i]);
  }

  lemma IdleGood(directory: Directory)
    ensures C.Good(C.Idle(directory)) && Governed(C.Idle(directory).tables) && IdsUnique(C.Idle(directory))
  {
    assert Project(Unused(directory)) == NOTHING;
  }

  // ---- what the trigger lets through under an intent --------------------------------------------------------------

  /** The change is one these tables can undergo: OLD is there, and an inserted key is not. */
  predicate Possible(t: Tables, change: I.RowChange) {
    match change
    case RoleInsert(n) => n.id !in t.roles
    case RoleUpdate(o, n) => o.id in t.roles && t.roles[o.id] == o && (n.id == o.id || n.id !in t.roles)
    case RoleDelete(o) => o.id in t.roles && t.roles[o.id] == o
    case GrantInsert(n) => n !in t.grants
    case GrantUpdate(o, n) => o in t.grants && n !in t.grants
    case GrantDelete(o) => o in t.grants
    case MemberInsert(n) => n !in t.members
    case MemberUpdate(o, n) => o in t.members && n !in t.members
    case MemberDelete(o) => o in t.members
  }

  /**
   Whatever statement made a change, if the trigger attests it under an intent then it changes the tables as the
   intent's event replays, inside the intent's tenant and without moving a role's key - except that an inserted role's
   status and version are not looked at, so the event says what was inserted exactly when they are the initial ones.
   */
  lemma AttestedChangeReplays(t: Tables, intents: I.Intents, b: I.Backend, change: I.RowChange)
    requires WellKeyed(t) && Possible(t, change)
    requires b.tx in intents && intents[b.tx].pid == b.pid && I.Attest(intents, b, change).Some?
    ensures Project(C.Visibly(t, Some(change))) == Apply(Project(t), intents[b.tx].row.event)
      <==> (change.RoleInsert? ==> change.newRole.status == I.Active && change.newRole.version == 1)
    ensures change.RoleInsert? ==> change.newRole.tenant == intents[b.tx].tenant
    ensures change.RoleUpdate? ==>
      change.newRole.tenant == change.oldRole.tenant == intents[b.tx].tenant && change.newRole.key == change.oldRole.key
    ensures !change.RoleDelete? && !change.GrantUpdate? && !change.MemberUpdate? && !intents[b.tx].attested
  {
    if change.RoleInsert? {
      assert change.newRole.id in Project(C.Visibly(t, Some(change))).roles;
    }
  }

  /** Granting and then removing, or assigning and then removing, leaves the relations as they were. */
  lemma RemovalUndoes(t: Tables, actor: Actor, role: nat, p: Permission, membership: nat)
    ensures var grant, ungrant := AssignPermission(role, p), RemovePermission(role, p);
      Changes(t, actor, grant) ==>
        && Changes(Effect(t, actor, grant), actor, ungrant) && !Changes(Effect(t, actor, grant), actor, grant)
        && Effect(Effect(t, actor, grant), actor, ungrant) == t
    ensures var give, take := AssignRole(membership, role), RemoveRole(membership, role);
      Changes(t, actor, give) ==>
        && Changes(Effect(t, actor, give), actor, take) && !Changes(Effect(t, actor, give), actor, give)
        && Effect(Effect(t, actor, give), actor, take) == t
  {
    hide PermissionId;
    if Changes(t, actor, AssignPermission(role, p)) {
      var g := I.Grant(actor.tenant, role, PermissionId(p));
      assert t.grants + {g} - {g} == t.grants;
    }
    if Changes(t, actor, AssignRole(membership, role)) {
      var m := I.Member(actor.tenant, membership, role);
      assert t.members + {m} - {m} == t.members;
    }
  }
}

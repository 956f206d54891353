/**
 Role administration as it runs: the guarded tables and their trigger, the transaction, the event writer with
 its remembered intent, and the seven service methods, each proved to leave the tables as its call says.
 */
module RoleAdministrationService {
  import opened Prelude
  import opened RoleIntents
  import opened RoleAdministration

  // ---- what the intent functions do for one armed transaction -------------------------------------------------

  predicate Armed(intents: Intents, b: Backend, row: AuditRow, attested: bool) {
    b.tx in intents && intents[b.tx] == Intent(b.pid, row, b.tenant, attested)
  }

  lemma ConsumeTakesOwn(intents: Intents, b: Backend, row: AuditRow)
    ensures Consume(intents, b, row) == if Armed(intents, b, row, true) then Some(intents - {b.tx}) else None
  {
    var doomed := set t | t in intents && Mine(intents, b, t) && intents[t].row == row
                          && intents[t].attested && intents[t].tenant == b.tenant;
    if Armed(intents, b, row, true) {
      assert b.tx in doomed;
      assert doomed == {b.tx};
    } else {
      assert b.tx !in doomed;
      assert doomed == {};
    }
  }

  lemma CancelTakesOwn(intents: Intents, b: Backend, event: nat)
    ensures Cancel(intents, b, event) ==
            if Mine(intents, b, b.tx) && intents[b.tx].row.id == event && !intents[b.tx].attested
              then Some(intents - {b.tx}) else None
  {
    var doomed := set t | t in intents && Mine(intents, b, t) && intents[t].row.id == event && !intents[t].attested;
    if Mine(intents, b, b.tx) && intents[b.tx].row.id == event && !intents[b.tx].attested {
      assert b.tx in doomed;
      assert doomed == {b.tx};
    } else {
      assert b.tx !in doomed;
      assert doomed == {};
    }
  }

  /** The identities prepare accepted under its locks still satisfy the insert guard. */
  lemma LinkedHolds(d: Directory, e: RoleEvent, membershipVersion: nat, tenant: nat, now: int)
    requires Linked(d, e, membershipVersion, tenant, now)
    ensures LinksHold(d, e)
  {
  }

  // ---- the database ---------------------------------------------------------------------------------------------

  datatype StatementError = IntegrityViolation

  /** The role an UPDATE selects: shown by row-level security and still at the expected version. */
  predicate Selects(roles: map<nat, RoleRow>, tenant: nat, role: nat, version: int) {
    role in roles && roles[role].tenant == tenant && roles[role].version == version
  }

  function Renamed(o: RoleRow, name: string): RoleRow {
    o.(name := name, version := o.version + 1)
  }

  function Deactivated(o: RoleRow): RoleRow {
    o.(status := Inactive, version := o.version + 1)
  }

  class RoleDatabase {
    var roles: map<nat, RoleRow>
    var grants: set<Grant>
    var members: set<Member>
    var log: seq<LogEntry>
    var directory: Directory
    var intents: Intents

    function View(): Tables
      reads this
    {
      Tables(roles, grants, members, log, directory)
    }

    /** prepare_role_security_event */
    method Prepare(b: Backend, row: AuditRow, membershipVersion: nat, now: int) returns (ok: bool)
      modifies this`intents
      ensures var next :=
        RoleIntents.Prepare(old(intents), b, row, Linked(directory, row.event, membershipVersion, b.tenant, now));
        ok == next.Some? && intents == if ok then next.value else old(intents)
    {
      if !WellShaped(row.event) {
        return false;
      }
      if !Linked(directory, row.event, membershipVersion, b.tenant, now) || b.tx in intents {
        return false;
      }
      intents := intents[b.tx := Intent(b.pid, row, b.tenant, false)];
      ok := true;
    }

    /** attest_role_security_change, run after each row change */
    method Attest(b: Backend, change: RowChange) returns (ok: bool)
      modifies this`intents
      ensures var next := RoleIntents.Attest(old(intents), b, change);
        ok == next.Some? && intents == if ok then next.value else old(intents)
    {
      if b.tx !in intents || intents[b.tx].pid != b.pid {
        return true;
      }
      var intent := intents[b.tx];
      if intent.attested || Read(change) != Some(ReadingOf(intent)) {
        return false;
      }
      intents := intents[b.tx := intent.(attested := true)];
      ok := true;
    }

    /** cancel_role_security_event */
    method Cancel(b: Backend, event: nat) returns (ok: bool)
      modifies this`intents
      ensures var next := RoleIntents.Cancel(old(intents), b, event);
        ok == next.Some? && intents == if ok then next.value else old(intents)
    {
      CancelTakesOwn(intents, b, event);
      ok := b.tx in intents && intents[b.tx].pid == b.pid && intents[b.tx].row.id == event && !intents[b.tx].attested;
      if ok {
        intents := intents - {b.tx};
      }
    }

    /** append_security_event with its insert guard: consume the intent, recheck the links, keep ids unique. */
    method AppendSecurityEvent(b: Backend, row: AuditRow) returns (ok: bool)
      modifies this`intents, this`log
      ensures var next := Consume(old(intents), b, row);
        && (ok <==> next.Some? && LinksHold(directory, row.event) && !IdTaken(old(log), row.id))
        && (ok <==>
            && next.Some?
            && row.event.user in directory.users
            && row.event.session in directory.sessions
            && directory.sessions[row.event.session].user == row.event.user
            && directory.sessions[row.event.session].selected == Some(row.event.membership)
            && row.event.membership in directory.memberships
            && directory.memberships[row.event.membership].user == row.event.user
            && Other(row.id) !in old(log) && forall r | Role(r) in old(log) :: r.id != row.id)
        && log == (if ok then old(log) + [Role(row)] else old(log))
        && intents == if ok then next.value else old(intents)
    {
      ConsumeTakesOwn(intents, b, row);
      ok := Armed(intents, b, row, true) && LinksHold(directory, row.event) && !IdTaken(log, row.id);
      if ok {
        intents := intents - {b.tx};
        log := log + [Role(row)];
      }
    }

    method InsertRole(b: Backend, row: RoleRow) returns (r: Result<RoleRow, StatementError>)
      modifies this`roles, this`intents
      ensures var next := RoleIntents.Attest(old(intents), b, RoleInsert(row));
        && (r.Ok? <==> row.id !in old(roles) && !KeyTaken(old(View()), row.tenant, row.key) && next.Some?)
        && (r.Ok? ==> r.value == row && roles == old(roles)[row.id := row] && intents == next.value)
        && (r.Err? ==> roles == old(roles) && intents == old(intents))
    {
      if row.id in roles || KeyTaken(View(), row.tenant, row.key) {
        return Err(IntegrityViolation);
      }
      var ok := Attest(b, RoleInsert(row));
      if !ok {
        return Err(IntegrityViolation);
      }
      roles := roles[row.id := row];
      r := Ok(row);
    }

    /** The status of a role row-level security shows, if any. */
    method RoleStatusOf(b: Backend, role: nat) returns (status: Option<RoleStatus>)
      ensures status == if role in roles && roles[role].tenant == b.tenant then Some(roles[role].status) else None
    {
      status := if role in roles && roles[role].tenant == b.tenant then Some(roles[role].status) else None;
    }

    /** UPDATE roles SET display_name, version + 1 WHERE id AND version */
    method RenameRole(b: Backend, role: nat, version: int, name: string)
        returns (r: Result<Option<RoleRow>, StatementError>)
      modifies this`roles, this`intents
      ensures !Selects(old(roles), b.tenant, role, version) ==>
        r == Ok(None) && roles == old(roles) && intents == old(intents)
      ensures Selects(old(roles), b.tenant, role, version) ==>
        var row := Renamed(old(roles)[role], name);
        (match RoleIntents.Attest(old(intents), b, RoleUpdate(old(roles)[role], row))
         case Some(next) => r == Ok(Some(row)) && roles == old(roles)[role := row] && intents == next
         case None => r == Err(IntegrityViolation) && roles == old(roles) && intents == old(intents))
    {
      if !(Selects(roles, b.tenant, role, version)) {
        return Ok(None);
      }
      var row := Renamed(roles[role], name);
      var ok := Attest(b, RoleUpdate(roles[role], row));
      if !ok {
        return Err(IntegrityViolation);
      }
      roles := roles[role := row];
      r := Ok(Some(row));
    }

    /** UPDATE roles SET status = 'inactive', version + 1 WHERE id AND version AND status = 'active' */
    method DeactivateRole(b: Backend, role: nat, version: int) returns (r: Result<Option<RoleRow>, StatementError>)
      modifies this`roles, this`intents
      ensures !(Selects(old(roles), b.tenant, role, version) && old(roles)[role].status == Active) ==>
        r == Ok(None) && roles == old(roles) && intents == old(intents)
      ensures Selects(old(roles), b.tenant, role, version) && old(roles)[role].status == Active ==>
        var row := Deactivated(old(roles)[role]);
        (match RoleIntents.Attest(old(intents), b, RoleUpdate(old(roles)[role], row))
         case Some(next) => r == Ok(Some(row)) && roles == old(roles)[role := row] && intents == next
         case None => r == Err(IntegrityViolation) && roles == old(roles) && intents == old(intents))
    {
      if !(Selects(roles, b.tenant, role, version) && roles[role].status == Active) {
        return Ok(None);
      }
      var row := Deactivated(roles[role]);
      var ok := Attest(b, RoleUpdate(roles[role], row));
      if !ok {
        return Err(IntegrityViolation);
      }
      roles := roles[role := row];
      r := Ok(Some(row));
    }

    method InsertGrant(b: Backend, row: Grant) returns (r: Result<bool, StatementError>)
      modifies this`grants, this`intents
      ensures var next := RoleIntents.Attest(old(intents), b, GrantInsert(row));
        if row in old(grants) then r == Ok(false) && grants == old(grants) && intents == old(intents)
        else if row.role in roles && roles[row.role].tenant == row.tenant && next.Some?
        then r == Ok(true) && grants == old(grants) + {row} && intents == next.value
        else r == Err(IntegrityViolation) && grants == old(grants) && intents == old(intents)
    {
      if row in grants {
        return Ok(false);
      }
      if row.role !in roles || roles[row.role].tenant != row.tenant {
        return Err(IntegrityViolation);
      }
      var ok := Attest(b, GrantInsert(row));
      if !ok {
        return Err(IntegrityViolation);
      }
      grants := grants + {row};
      r := Ok(true);
    }

    method DeleteGrant(b: Backend, row: Grant) returns (r: Result<bool, StatementError>)
      modifies this`grants, this`intents
      ensures var next := RoleIntents.Attest(old(intents), b, GrantDelete(row));
        if row !in old(grants) then r == Ok(false) && grants == old(grants) && intents == old(intents)
        else if next.Some?
        then r == Ok(true) && grants == old(grants) - {row} && intents == next.value
        else r == Err(IntegrityViolation) && grants == old(grants) && intents == old(intents)
    {
      if row !in grants {
        return Ok(false);
      }
      var ok := Attest(b, GrantDelete(row));
      if !ok {
        return Err(IntegrityViolation);
      }
      grants := grants - {row};
      r := Ok(true);
    }

    method InsertMember(b: Backend, row: Member) returns (r: Result<bool, StatementError>)
      modifies this`members, this`intents
      ensures var next := RoleIntents.Attest(old(intents), b, MemberInsert(row));
        if row in old(members) then r == Ok(false) && members == old(members) && intents == old(intents)
        else if && row.role in roles && roles[row.role].tenant == row.tenant && next.Some?
                && row.membership in directory.memberships && directory.memberships[row.membership].tenant == row.tenant
        then r == Ok(true) && members == old(members) + {row} && intents == next.value
        else r == Err(IntegrityViolation) && members == old(members) && intents == old(intents)
    {
      if row in members {
        return Ok(false);
      }
      if row.role !in roles || roles[row.role].tenant != row.tenant
         || row.membership !in directory.memberships || directory.memberships[row.membership].tenant != row.tenant {
        return Err(IntegrityViolation);
      }
      var ok := Attest(b, MemberInsert(row));
      if !ok {
        return Err(IntegrityViolation);
      }
      members := members + {row};
      r := Ok(true);
    }

    method DeleteMember(b: Backend, row: Member) returns (r: Result<bool, StatementError>)
      modifies this`members, this`intents
      ensures var next := RoleIntents.Attest(old(intents), b, MemberDelete(row));
        if row !in old(members) then r == Ok(false) && members == old(members) && intents == old(intents)
        else if next.Some?
        then r == Ok(true) && members == old(members) - {row} && intents == next.value
        else r == Err(IntegrityViolation) && members == old(members) && intents == old(intents)
    {
      if row !in members {
        return Ok(false);
      }
      var ok := Attest(b, MemberDelete(row));
      if !ok {
        return Err(IntegrityViolation);
      }
      members := members - {row};
      r := Ok(true);
    }
  }

  // ---- transaction and writer ------------------------------------------------------------------------------------

  /** A tenant-bound unit of work: it commits past the deferred check, or puts everything back. */
  class TenantTransaction {
    const db: RoleDatabase
    const backend: Backend
    const before: Tables
    const intentsBefore: Intents

    constructor (db: RoleDatabase, backend: Backend)
      ensures this.db == db && this.backend == backend
      ensures before == db.View() && intentsBefore == db.intents
    {
      this.db, this.backend, this.before, this.intentsBefore := db, backend, db.View(), db.intents;
    }

    method End(success: bool) returns (committed: bool)
      modifies db
      ensures committed <==> success && MayCommit(old(db.intents), backend)
      ensures db.View() == if committed then old(db.View()) else before
      ensures db.intents == if committed then old(db.intents) else intentsBefore
    {
      committed := success && backend.tx !in db.intents;
      if !committed {
        db.roles, db.grants, db.members := before.roles, before.grants, before.members;
        db.log, db.directory, db.intents := before.log, before.directory, intentsBefore;
      }
    }
  }

  class SecurityEventWriter {
    const transaction: TenantTransaction
    const correlation: nat
    var roleIntent: Option<(RoleEvent, nat)>

    constructor (transaction: TenantTransaction, correlation: nat)
      ensures this.transaction == transaction && this.correlation == correlation && roleIntent == None
    {
      this.transaction, this.correlation, roleIntent := transaction, correlation, None;
    }

    /** The remembered intent is the database's intent row of this transaction, and there is none when it is unset. */
    ghost predicate Mirrors()
      reads this, transaction.db
    {
      var b, intents := transaction.backend, transaction.db.intents;
      match roleIntent
      case None => b.tx !in intents
      case Some((event, id)) =>
        var row := AuditRow(id, correlation, event);
        Armed(intents, b, row, false) || Armed(intents, b, row, true)
    }

    method PrepareRole(event: RoleEvent, id: nat, membershipVersion: nat, now: int) returns (ok: bool)
      requires Mirrors()
      modifies this`roleIntent, transaction.db`intents
      ensures Mirrors()
      ensures ok <==> && old(roleIntent) == None && WellShaped(event) && Catalogued(event)
                      && Linked(transaction.db.directory, event, membershipVersion, transaction.backend.tenant, now)
      ensures var d, tenant := transaction.db.directory, transaction.backend.tenant;
        ok <==>
        && old(roleIntent) == None && WellShaped(event) && Catalogued(event)
        && event.user in d.users && d.users[event.user].active && tenant in d.activeTenants
        && event.session in d.sessions && d.sessions[event.session].user == event.user
        && !d.sessions[event.session].revoked
        && now < d.sessions[event.session].idleExpiresAt && now < d.sessions[event.session].absoluteExpiresAt
        && d.sessions[event.session].securityVersion == d.users[event.user].securityVersion
        && d.sessions[event.session].selected == Some(event.membership)
        && d.sessions[event.session].selectedVersion == Some(membershipVersion)
        && event.membership in d.memberships
        && d.memberships[event.membership] == MembershipRow(event.user, tenant, true, membershipVersion)
        && (match event.target
            case None => true
            case Some(m) => m in d.memberships && d.memberships[m].tenant == tenant && d.memberships[m].active)
      ensures roleIntent == if ok then Some((event, id)) else old(roleIntent)
      ensures transaction.db.intents ==
              (if ok
               then old(transaction.db.intents)[transaction.backend.tx :=
                 Intent(transaction.backend.pid, AuditRow(id, correlation, event), transaction.backend.tenant, false)]
               else old(transaction.db.intents))
    {
      if !WellShaped(event) || !Catalogued(event) || roleIntent != None {
        return false;
      }
      ok := transaction.db.Prepare(transaction.backend, AuditRow(id, correlation, event), membershipVersion, now);
      if ok {
        roleIntent := Some((event, id));
      }
    }

    method Write(event: RoleEvent) returns (ok: bool)
      requires Mirrors()
      modifies this`roleIntent, transaction.db`intents, transaction.db`log
      ensures Mirrors()
      ensures ok ==> old(roleIntent).Some?
      ensures ok <==> && old(roleIntent).Some? && old(roleIntent).value.0 == event
                      && Armed(old(transaction.db.intents), transaction.backend,
                               AuditRow(old(roleIntent).value.1, correlation, event), true)
                      && LinksHold(transaction.db.directory, event)
                      && !IdTaken(old(transaction.db.log), old(roleIntent).value.1)
      ensures transaction.db.log ==
              if ok then old(transaction.db.log) + [Role(AuditRow(old(roleIntent).value.1, correlation, event))]
              else old(transaction.db.log)
      ensures transaction.db.intents ==
              if ok then old(transaction.db.intents) - {transaction.backend.tx} else old(transaction.db.intents)
    {
      if roleIntent == None || roleIntent.value.0 != event {
        return false;
      }
      ConsumeTakesOwn(transaction.db.intents, transaction.backend, AuditRow(roleIntent.value.1, correlation, event));
      ok := transaction.db.AppendSecurityEvent(transaction.backend, AuditRow(roleIntent.value.1, correlation, event));
      if ok {
        roleIntent := None;
      }
    }

    method CancelRole(event: RoleEvent) returns (ok: bool)
      requires Mirrors()
      modifies this`roleIntent, transaction.db`intents
      ensures Mirrors()
      ensures ok <==> && old(roleIntent).Some? && old(roleIntent).value.0 == event
                      && !old(transaction.db.intents)[transaction.backend.tx].attested
      ensures transaction.db.intents ==
              if ok then old(transaction.db.intents) - {transaction.backend.tx} else old(transaction.db.intents)
    {
      if roleIntent == None || roleIntent.value.0 != event {
        return false;
      }
      CancelTakesOwn(transaction.db.intents, transaction.backend, roleIntent.value.1);
      ok := transaction.db.Cancel(transaction.backend, roleIntent.value.1);
      if ok {
        roleIntent := None;
      }
    }
  }

  // ---- the service -----------------------------------------------------------------------------------------------

  /** What a call may assume: keyed tables, a transaction number of its own and an unused event id. */
  ghost predicate Ready(t: Tables, intents: Intents, draw: Draw) {
    WellKeyed(t) && draw.tx !in intents && !IdTaken(t.log, draw.event)
  }

  lemma KeyedById(t: Tables, role: nat)
    requires WellKeyed(t)
    ensures role in t.roles ==> t.roles[role].id == role
  {
  }

  lemma ActiveMemberExists(d: Directory, membership: nat, tenant: nat)
    requires ActiveMembership(d, membership, tenant)
    ensures membership in d.memberships && d.memberships[membership].tenant == tenant
  {
  }

  /** Under its own unattested intent, the change the intent describes is attested. */
  lemma ArmedAttests(intents: Intents, b: Backend, row: AuditRow, change: RowChange)
    requires Armed(intents, b, row, false) && Describes(row, change, b.tenant)
    ensures RoleIntents.Attest(intents, b, change) == Some(intents[b.tx := Intent(b.pid, row, b.tenant, true)])
  {
  }

  /** Every event a call builds has the shape prepare asks for and a permission of the catalogue. */
  lemma EventShaped(actor: Actor, call: Call)
    ensures WellShaped(EventOf(actor, call)) && Catalogued(EventOf(actor, call))
  {
    hide PermissionId, PermissionCatalog;
    if call.AssignPermission? || call.RemovePermission? {
      PermissionListed(call.permission);
    }
  }

  /** Each relation call's event describes the row its statement inserts or deletes. */
  lemma GrantDescribed(actor: Actor, role: nat, permission: Permission, draw: Draw)
    ensures var row := Grant(actor.tenant, role, PermissionId(permission));
      && Describes(RowOf(actor, AssignPermission(role, permission), draw), GrantInsert(row), actor.tenant)
      && Describes(RowOf(actor, RemovePermission(role, permission), draw), GrantDelete(row), actor.tenant)
  {
    hide PermissionId;
  }

  lemma MemberDescribed(actor: Actor, membership: nat, role: nat, draw: Draw)
    ensures var row := Member(actor.tenant, membership, role);
      && Describes(RowOf(actor, AssignRole(membership, role), draw), MemberInsert(row), actor.tenant)
      && Describes(RowOf(actor, RemoveRole(membership, role), draw), MemberDelete(row), actor.tenant)
  {
  }

  /** Each role call's event describes the row its statement inserts or updates. */
  lemma CreationDescribed(actor: Actor, role: nat, key: string, name: string, draw: Draw)
    ensures Describes(RowOf(actor, Call.CreateRole(role, key, name), draw),
                      RoleInsert(RoleRow(role, actor.tenant, key, name, Active, 1)), actor.tenant)
  {
  }

  lemma RenamingDescribed(actor: Actor, o: RoleRow, version: int, name: string, draw: Draw)
    requires o.tenant == actor.tenant
    ensures Describes(RowOf(actor, Call.UpdateRole(o.id, version, name), draw), RoleUpdate(o, Renamed(o, name)),
      actor.tenant)
  {
  }

  lemma DisablingDescribed(actor: Actor, o: RoleRow, version: int, draw: Draw)
    requires o.tenant == actor.tenant && o.status == Active
    ensures Describes(RowOf(actor, Call.DisableRole(o.id, version), draw), RoleUpdate(o, Deactivated(o)), actor.tenant)
  {
  }

  /** Arming, attesting and then consuming or cancelling leaves the intent table as it was. */
  lemma DisarmRestores(intents: Intents, b: Backend, row: AuditRow)
    requires b.tx !in intents
    ensures var armed, attested := Intent(b.pid, row, b.tenant, false), Intent(b.pid, row, b.tenant, true);
      && intents[b.tx := armed] - {b.tx} == intents
      && intents[b.tx := armed][b.tx := attested] - {b.tx} == intents
  {
  }

  class RoleAdministrationService {
    const db: RoleDatabase

    constructor (db: RoleDatabase)
      ensures this.db == db
    {
      this.db := db;
    }

    /** Create a role; only a taken id or key is a conflict, and a bad name or lost authority stores nothing. */
    method CreateRole(actor: Actor, role: nat, key: string, name: string, draw: Draw)
        returns (r: Result<RoleRow, Error>)
      requires Ready(db.View(), db.intents, draw)
      modifies db
      ensures var t, call := old(db.View()), Call.CreateRole(role, key, name);
        && db.View() == AfterCall(t, actor, call, draw) && db.intents == old(db.intents)
        && (match Refusal(t, actor, call, draw.now)
            case Some(e) => r == Err(e)
            case None => role in db.roles && r == Ok(db.roles[role]))
    {
      CreationDescribed(actor, role, key, name, draw);
      hide Linked, ActiveMembership, ValidName, KeyTaken, IdTaken, LinksHold, WellKeyed, PermissionId, TenantScoped;
      hide Lands;
      EventShaped(actor, Call.CreateRole(role, key, name));
      hide EventOf, WellShaped, Catalogued, RoleIntents.Attest, Read, ReadingOf, Mine, Describes;
      if actor.permission != TenantRolesManage {
        return Err(BoundaryRequired);
      }
      var call := Call.CreateRole(role, key, name);
      ghost var was := db.View();
      ghost var row := RowOf(actor, call, draw);
      DisarmRestores(db.intents, Backend(draw.tx, draw.pid, actor.tenant), row);
      var transaction := new TenantTransaction(db, Backend(draw.tx, draw.pid, actor.tenant));
      var event := EventOf(actor, call);
      var writer := new SecurityEventWriter(transaction, draw.correlation);
      r := Err(AuditWriteFailed);
      var prepared := writer.PrepareRole(event, draw.event, actor.membershipVersion, draw.now);
      if prepared {
        LinkedHolds(db.directory, event, actor.membershipVersion, actor.tenant, draw.now);
        if !ValidName(name) {
          r := Err(InvalidName);
        } else {
          var created := RoleRow(role, actor.tenant, key, name, Active, 1);
          ArmedAttests(db.intents, transaction.backend, row, RoleInsert(created));
          var inserted := db.InsertRole(transaction.backend, created);
          if inserted.Err? {
            r := Err(RoleConflict);
          } else {
            var written := writer.Write(event);
            r := if written then Ok(inserted.value) else Err(AuditWriteFailed);
          }
        }
      }
      assert r.Ok? ==> db.intents == old(db.intents) && db.View() == AfterCall(was, actor, call, draw);
      assert r.Err? ==> was == AfterCall(was, actor, call, draw);
      var committed := transaction.End(r.Ok?);
      if r.Ok? && !committed {
        r := Err(DatabaseError);
      }
    }

    /** The end of a relation call: write the event of a change, or cancel the intent of a no-op. */
    method Conclude(writer: SecurityEventWriter, event: RoleEvent, id: nat, changed: bool)
        returns (r: Result<bool, Error>)
      requires writer.transaction.db == db && writer.Mirrors() && writer.roleIntent == Some((event, id))
      requires Armed(db.intents, writer.transaction.backend, AuditRow(id, writer.correlation, event), changed)
      requires LinksHold(db.directory, event) && !IdTaken(db.log, id)
      modifies writer`roleIntent, db`intents, db`log
      ensures r == Ok(changed)
      ensures db.log == if changed then old(db.log) + [Role(AuditRow(id, writer.correlation, event))] else old(db.log)
      ensures db.intents == old(db.intents) - {writer.transaction.backend.tx}
    {
      hide LinksHold, IdTaken;
      if changed {
        var written := writer.Write(event);
        r := if written then Ok(true) else Err(AuditWriteFailed);
      } else {
        var cancelled := writer.CancelRole(event);
        r := if cancelled then Ok(false) else Err(AuditWriteFailed);
      }
    }

    /** The error for an update that selected no row. */
    method MissingOrStale(tenant: nat, role: nat) returns (e: Error)
      ensures e == if role in db.roles && db.roles[role].tenant == tenant then RoleConflict else RoleNotFound
    {
      e := if role in db.roles && db.roles[role].tenant == tenant then RoleConflict else RoleNotFound;
    }

    /** Inside an armed transaction: rename the role the caller read, and write the event. */
    method RenameAndWrite(writer: SecurityEventWriter, actor: Actor, role: nat, version: int, name: string, draw: Draw)
      returns (r: Result<RoleRow, Error>)
      requires writer.transaction.db == db && writer.transaction.backend == Backend(draw.tx, draw.pid, actor.tenant)
      requires writer.Mirrors() && writer.correlation == draw.correlation
      requires writer.roleIntent == Some((EventOf(actor, Call.UpdateRole(role, version, name)), draw.event))
      requires Armed(db.intents, writer.transaction.backend,
        RowOf(actor, Call.UpdateRole(role, version, name), draw), false)
      requires LinksHold(db.directory, EventOf(actor, Call.UpdateRole(role, version, name)))
        && !IdTaken(db.log, draw.event)
      requires role in db.roles ==> db.roles[role].id == role
      modifies writer`roleIntent, db`roles, db`intents, db`log
      ensures if Selects(old(db.roles), actor.tenant, role, version)
              then && r == Ok(Renamed(old(db.roles)[role], name)) && db.roles == old(db.roles)[role := r.value]
                   && db.log == old(db.log) + [Role(RowOf(actor, Call.UpdateRole(role, version, name), draw))]
                   && db.intents == old(db.intents) - {draw.tx}
              else && r == Err(if role in db.roles && db.roles[role].tenant == actor.tenant
                then RoleConflict else RoleNotFound)
                   && db.roles == old(db.roles) && db.log == old(db.log)
    {
      hide LinksHold, IdTaken, RoleIntents.Attest, Read, ReadingOf, Mine, Describes;
      var event := EventOf(actor, Call.UpdateRole(role, version, name));
      if Selects(db.roles, actor.tenant, role, version) {
        RenamingDescribed(actor, db.roles[role], version, name, draw);
        ArmedAttests(db.intents, writer.transaction.backend, RowOf(actor, Call.UpdateRole(role, version, name), draw),
                     RoleUpdate(db.roles[role], Renamed(db.roles[role], name)));
      }
      var updated := db.RenameRole(writer.transaction.backend, role, version, name);
      if updated == Ok(None) {
        var e := MissingOrStale(actor.tenant, role);
        r := Err(e);
      } else if updated.Err? {
        r := Err(DatabaseError);
      } else {
        var written := writer.Write(event);
        r := if written then Ok(updated.value.value) else Err(AuditWriteFailed);
      }
    }

    /** Rename a role at the version the caller read. */
    method UpdateRole(actor: Actor, role: nat, expectedVersion: int, name: string, draw: Draw)
        returns (r: Result<RoleRow, Error>)
      requires Ready(db.View(), db.intents, draw)
      modifies db
      ensures var t, call := old(db.View()), Call.UpdateRole(role, expectedVersion, name);
        && db.View() == AfterCall(t, actor, call, draw) && db.intents == old(db.intents)
        && (match Refusal(t, actor, call, draw.now)
            case Some(e) => r == Err(e)
            case None => role in db.roles && r == Ok(db.roles[role]))
    {
      KeyedById(db.View(), role);
      hide Linked, ActiveMembership, ValidName, KeyTaken, IdTaken, LinksHold, WellKeyed, PermissionId, TenantScoped;
      hide Lands;
      EventShaped(actor, Call.UpdateRole(role, expectedVersion, name));
      hide EventOf, WellShaped, Catalogued, RoleIntents.Attest, Read, ReadingOf, Mine, Describes;
      if actor.permission != TenantRolesManage {
        return Err(BoundaryRequired);
      }
      var call := Call.UpdateRole(role, expectedVersion, name);
      ghost var was := db.View();
      ghost var row := RowOf(actor, call, draw);
      DisarmRestores(db.intents, Backend(draw.tx, draw.pid, actor.tenant), row);
      var transaction := new TenantTransaction(db, Backend(draw.tx, draw.pid, actor.tenant));
      var event := EventOf(actor, call);
      var writer := new SecurityEventWriter(transaction, draw.correlation);
      r := Err(AuditWriteFailed);
      var prepared := writer.PrepareRole(event, draw.event, actor.membershipVersion, draw.now);
      if prepared {
        LinkedHolds(db.directory, event, actor.membershipVersion, actor.tenant, draw.now);
        if !ValidName(name) {
          r := Err(InvalidName);
        } else {
          r := RenameAndWrite(writer, actor, role, expectedVersion, name, draw);
        }
      }
      assert r.Ok? ==> db.intents == old(db.intents) && db.View() == AfterCall(was, actor, call, draw);
      assert r.Err? ==> was == AfterCall(was, actor, call, draw);
      var committed := transaction.End(r.Ok?);
      if r.Ok? && !committed {
        r := Err(DatabaseError);
      }
    }

    /** Inside an armed transaction: disable the role the caller read, and write the event. */
    method DisableAndWrite(writer: SecurityEventWriter, actor: Actor, role: nat, version: int, draw: Draw)
      returns (r: Result<RoleRow, Error>)
      requires writer.transaction.db == db && writer.transaction.backend == Backend(draw.tx, draw.pid, actor.tenant)
      requires writer.Mirrors() && writer.correlation == draw.correlation
      requires writer.roleIntent == Some((EventOf(actor, Call.DisableRole(role, version)), draw.event))
      requires Armed(db.intents, writer.transaction.backend, RowOf(actor, Call.DisableRole(role, version), draw), false)
      requires LinksHold(db.directory, EventOf(actor, Call.DisableRole(role, version))) && !IdTaken(db.log, draw.event)
      requires role in db.roles ==> db.roles[role].id == role
      modifies writer`roleIntent, db`roles, db`intents, db`log
      ensures if Selects(old(db.roles), actor.tenant, role, version) && old(db.roles)[role].status == Active
              then && r == Ok(Deactivated(old(db.roles)[role])) && db.roles == old(db.roles)[role := r.value]
                   && db.log == old(db.log) + [Role(RowOf(actor, Call.DisableRole(role, version), draw))]
                   && db.intents == old(db.intents) - {draw.tx}
              else && r == Err(if role in db.roles && db.roles[role].tenant == actor.tenant
                then RoleConflict else RoleNotFound)
                   && db.roles == old(db.roles) && db.log == old(db.log)
    {
      hide LinksHold, IdTaken, RoleIntents.Attest, Read, ReadingOf, Mine, Describes;
      var event := EventOf(actor, Call.DisableRole(role, version));
      if Selects(db.roles, actor.tenant, role, version) && db.roles[role].status == Active {
        DisablingDescribed(actor, db.roles[role], version, draw);
        ArmedAttests(db.intents, writer.transaction.backend, RowOf(actor, Call.DisableRole(role, version), draw),
                     RoleUpdate(db.roles[role], Deactivated(db.roles[role])));
      }
      var updated := db.DeactivateRole(writer.transaction.backend, role, version);
      if updated == Ok(None) {
        var e := MissingOrStale(actor.tenant, role);
        r := Err(e);
      } else if updated.Err? {
        r := Err(DatabaseError);
      } else {
        var written := writer.Write(event);
        r := if written then Ok(updated.value.value) else Err(AuditWriteFailed);
      }
    }

    /** Disable an active role at the version the caller read. */
    method DisableRole(actor: Actor, role: nat, expectedVersion: int, draw: Draw) returns (r: Result<RoleRow, Error>)
      requires Ready(db.View(), db.intents, draw)
      modifies db
      ensures var t, call := old(db.View()), Call.DisableRole(role, expectedVersion);
        && db.View() == AfterCall(t, actor, call, draw) && db.intents == old(db.intents)
        && (match Refusal(t, actor, call, draw.now)
            case Some(e) => r == Err(e)
            case None => role in db.roles && r == Ok(db.roles[role]))
    {
      KeyedById(db.View(), role);
      hide Linked, ActiveMembership, ValidName, KeyTaken, IdTaken, LinksHold, WellKeyed, PermissionId, TenantScoped;
      hide Lands;
      EventShaped(actor, Call.DisableRole(role, expectedVersion));
      hide EventOf, WellShaped, Catalogued, RoleIntents.Attest, Read, ReadingOf, Mine, Describes;
      if actor.permission != TenantRolesManage {
        return Err(BoundaryRequired);
      }
      var call := Call.DisableRole(role, expectedVersion);
      ghost var was := db.View();
      ghost var row := RowOf(actor, call, draw);
      DisarmRestores(db.intents, Backend(draw.tx, draw.pid, actor.tenant), row);
      var transaction := new TenantTransaction(db, Backend(draw.tx, draw.pid, actor.tenant));
      var event := EventOf(actor, call);
      var writer := new SecurityEventWriter(transaction, draw.correlation);
      r := Err(AuditWriteFailed);
      var prepared := writer.PrepareRole(event, draw.event, actor.membershipVersion, draw.now);
      if prepared {
        LinkedHolds(db.directory, event, actor.membershipVersion, actor.tenant, draw.now);
        r := DisableAndWrite(writer, actor, role, expectedVersion, draw);
      }
      assert r.Ok? ==> db.intents == old(db.intents) && db.View() == AfterCall(was, actor, call, draw);
      assert r.Err? ==> was == AfterCall(was, actor, call, draw);
      var committed := transaction.End(r.Ok?);
      if r.Ok? && !committed {
        r := Err(DatabaseError);
      }
    }

    /** Grant a tenant permission to an active role; true when it was not granted already. */
    method AssignPermission(actor: Actor, role: nat, permission: Permission, draw: Draw)
        returns (r: Result<bool, Error>)
      requires Ready(db.View(), db.intents, draw)
      modifies db
      ensures var t, call := old(db.View()), Call.AssignPermission(role, permission);
        && db.View() == AfterCall(t, actor, call, draw) && db.intents == old(db.intents)
        && r == (match Refusal(t, actor, call, draw.now)
           case Some(e) => Err(e) case None => Ok(Changes(t, actor, call)))
    {
      GrantDescribed(actor, role, permission, draw);
      hide Linked, ActiveMembership, ValidName, KeyTaken, IdTaken, LinksHold, WellKeyed, PermissionId, TenantScoped;
      hide Lands;
      EventShaped(actor, Call.AssignPermission(role, permission));
      hide EventOf, WellShaped, Catalogued, RoleIntents.Attest, Read, ReadingOf, Mine, Describes;
      if actor.permission != TenantRolesManage {
        return Err(BoundaryRequired);
      }
      if !TenantScoped(permission) {
        return Err(BoundaryRequired);
      }
      var call := Call.AssignPermission(role, permission);
      ghost var was := db.View();
      ghost var row := RowOf(actor, call, draw);
      DisarmRestores(db.intents, Backend(draw.tx, draw.pid, actor.tenant), row);
      var transaction := new TenantTransaction(db, Backend(draw.tx, draw.pid, actor.tenant));
      var status := db.RoleStatusOf(transaction.backend, role);
      if status == None {
        r := Err(RoleNotFound);
      } else if status != Some(Active) {
        r := Err(RoleConflict);
      } else {
        var event := EventOf(actor, call);
        var writer := new SecurityEventWriter(transaction, draw.correlation);
        var prepared := writer.PrepareRole(event, draw.event, actor.membershipVersion, draw.now);
        if !prepared {
          r := Err(AuditWriteFailed);
        } else {
          LinkedHolds(db.directory, event, actor.membershipVersion, actor.tenant, draw.now);
          ArmedAttests(db.intents, transaction.backend, row,
            GrantInsert(Grant(actor.tenant, role, PermissionId(permission))));
          var changed := db.InsertGrant(transaction.backend, Grant(actor.tenant, role, PermissionId(permission)));
          if changed.Err? {
            r := Err(DatabaseError);
          } else {
            r := Conclude(writer, event, draw.event, changed.value);
            assert db.View() == AfterCall(was, actor, call, draw);
          }
        }
      }
      assert r.Ok? ==> db.intents == old(db.intents) && db.View() == AfterCall(was, actor, call, draw);
      assert r.Err? ==> was == AfterCall(was, actor, call, draw);
      var committed := transaction.End(r.Ok?);
      if r.Ok? && !committed {
        r := Err(DatabaseError);
      }
    }

    /** Take a tenant permission from a role; true when it held it. */
    method RemovePermission(actor: Actor, role: nat, permission: Permission, draw: Draw)
        returns (r: Result<bool, Error>)
      requires Ready(db.View(), db.intents, draw)
      modifies db
      ensures var t, call := old(db.View()), Call.RemovePermission(role, permission);
        && db.View() == AfterCall(t, actor, call, draw) && db.intents == old(db.intents)
        && r == (match Refusal(t, actor, call, draw.now)
           case Some(e) => Err(e) case None => Ok(Changes(t, actor, call)))
    {
      GrantDescribed(actor, role, permission, draw);
      hide Linked, ActiveMembership, ValidName, KeyTaken, IdTaken, LinksHold, WellKeyed, PermissionId, TenantScoped;
      hide Lands;
      EventShaped(actor, Call.RemovePermission(role, permission));
      hide EventOf, WellShaped, Catalogued, RoleIntents.Attest, Read, ReadingOf, Mine, Describes;
      if actor.permission != TenantRolesManage {
        return Err(BoundaryRequired);
      }
      if !TenantScoped(permission) {
        return Err(BoundaryRequired);
      }
      var call := Call.RemovePermission(role, permission);
      ghost var was := db.View();
      ghost var row := RowOf(actor, call, draw);
      DisarmRestores(db.intents, Backend(draw.tx, draw.pid, actor.tenant), row);
      var transaction := new TenantTransaction(db, Backend(draw.tx, draw.pid, actor.tenant));
      var status := db.RoleStatusOf(transaction.backend, role);
      if status == None {
        r := Err(RoleNotFound);
      } else {
        var event := EventOf(actor, call);
        var writer := new SecurityEventWriter(transaction, draw.correlation);
        var prepared := writer.PrepareRole(event, draw.event, actor.membershipVersion, draw.now);
        if !prepared {
          r := Err(AuditWriteFailed);
        } else {
          LinkedHolds(db.directory, event, actor.membershipVersion, actor.tenant, draw.now);
          ArmedAttests(db.intents, transaction.backend, row,
            GrantDelete(Grant(actor.tenant, role, PermissionId(permission))));
          var changed := db.DeleteGrant(transaction.backend, Grant(actor.tenant, role, PermissionId(permission)));
          if changed.Err? {
            r := Err(DatabaseError);
          } else {
            r := Conclude(writer, event, draw.event, changed.value);
            assert db.View() == AfterCall(was, actor, call, draw);
          }
        }
      }
      assert r.Ok? ==> db.intents == old(db.intents) && db.View() == AfterCall(was, actor, call, draw);
      assert r.Err? ==> was == AfterCall(was, actor, call, draw);
      var committed := transaction.End(r.Ok?);
      if r.Ok? && !committed {
        r := Err(DatabaseError);
      }
    }

    /** Give an active role to an active membership of the tenant; true when it did not have it. */
    method AssignRole(actor: Actor, membership: nat, role: nat, draw: Draw) returns (r: Result<bool, Error>)
      requires Ready(db.View(), db.intents, draw)
      modifies db
      ensures var t, call := old(db.View()), Call.AssignRole(membership, role);
        && db.View() == AfterCall(t, actor, call, draw) && db.intents == old(db.intents)
        && r == (match Refusal(t, actor, call, draw.now)
           case Some(e) => Err(e) case None => Ok(Changes(t, actor, call)))
    {
      MemberDescribed(actor, membership, role, draw);
      hide Linked, ActiveMembership, ValidName, KeyTaken, IdTaken, LinksHold, WellKeyed, PermissionId, TenantScoped;
      hide Lands;
      EventShaped(actor, Call.AssignRole(membership, role));
      hide EventOf, WellShaped, Catalogued, RoleIntents.Attest, Read, ReadingOf, Mine, Describes;
      if actor.permission != TenantMembershipsManage {
        return Err(BoundaryRequired);
      }
      var call := Call.AssignRole(membership, role);
      ghost var was := db.View();
      ghost var row := RowOf(actor, call, draw);
      DisarmRestores(db.intents, Backend(draw.tx, draw.pid, actor.tenant), row);
      var transaction := new TenantTransaction(db, Backend(draw.tx, draw.pid, actor.tenant));
      var status := db.RoleStatusOf(transaction.backend, role);
      if status == None {
        r := Err(RoleNotFound);
      } else if status != Some(Active) {
        r := Err(RoleConflict);
      } else if !ActiveMembership(db.directory, membership, actor.tenant) {
        r := Err(MembershipNotFound);
      } else {
        var event := EventOf(actor, call);
        var writer := new SecurityEventWriter(transaction, draw.correlation);
        var prepared := writer.PrepareRole(event, draw.event, actor.membershipVersion, draw.now);
        if !prepared {
          r := Err(AuditWriteFailed);
        } else {
          LinkedHolds(db.directory, event, actor.membershipVersion, actor.tenant, draw.now);
          ActiveMemberExists(db.directory, membership, actor.tenant);
          ArmedAttests(db.intents, transaction.backend, row, MemberInsert(Member(actor.tenant, membership, role)));
          var changed := db.InsertMember(transaction.backend, Member(actor.tenant, membership, role));
          if changed.Err? {
            r := Err(DatabaseError);
          } else {
            r := Conclude(writer, event, draw.event, changed.value);
            assert db.View() == AfterCall(was, actor, call, draw);
          }
        }
      }
      assert r.Ok? ==> db.intents == old(db.intents) && db.View() == AfterCall(was, actor, call, draw);
      assert r.Err? ==> was == AfterCall(was, actor, call, draw);
      var committed := transaction.End(r.Ok?);
      if r.Ok? && !committed {
        r := Err(DatabaseError);
      }
    }

    /** Take a role from an active membership of the tenant; true when it had it. */
    method RemoveRole(actor: Actor, membership: nat, role: nat, draw: Draw) returns (r: Result<bool, Error>)
      requires Ready(db.View(), db.intents, draw)
      modifies db
      ensures var t, call := old(db.View()), Call.RemoveRole(membership, role);
        && db.View() == AfterCall(t, actor, call, draw) && db.intents == old(db.intents)
        && r == (match Refusal(t, actor, call, draw.now)
           case Some(e) => Err(e) case None => Ok(Changes(t, actor, call)))
    {
      MemberDescribed(actor, membership, role, draw);
      hide Linked, ActiveMembership, ValidName, KeyTaken, IdTaken, LinksHold, WellKeyed, PermissionId, TenantScoped;
      hide Lands;
      EventShaped(actor, Call.RemoveRole(membership, role));
      hide EventOf, WellShaped, Catalogued, RoleIntents.Attest, Read, ReadingOf, Mine, Describes;
      if actor.permission != TenantMembershipsManage {
        return Err(BoundaryRequired);
      }
      var call := Call.RemoveRole(membership, role);
      ghost var was := db.View();
      ghost var row := RowOf(actor, call, draw);
      DisarmRestores(db.intents, Backend(draw.tx, draw.pid, actor.tenant), row);
      var transaction := new TenantTransaction(db, Backend(draw.tx, draw.pid, actor.tenant));
      var status := db.RoleStatusOf(transaction.backend, role);
      if status == None {
        r := Err(RoleNotFound);
      } else if !ActiveMembership(db.directory, membership, actor.tenant) {
        r := Err(MembershipNotFound);
      } else {
        var event := EventOf(actor, call);
        var writer := new SecurityEventWriter(transaction, draw.correlation);
        var prepared := writer.PrepareRole(event, draw.event, actor.membershipVersion, draw.now);
        if !prepared {
          r := Err(AuditWriteFailed);
        } else {
          LinkedHolds(db.directory, event, actor.membershipVersion, actor.tenant, draw.now);
          ArmedAttests(db.intents, transaction.backend, row, MemberDelete(Member(actor.tenant, membership, role)));
          var changed := db.DeleteMember(transaction.backend, Member(actor.tenant, membership, role));
          if changed.Err? {
            r := Err(DatabaseError);
          } else {
            r := Conclude(writer, event, draw.event, changed.value);
            assert db.View() == AfterCall(was, actor, call, draw);
          }
        }
      }
      assert r.Ok? ==> db.intents == old(db.intents) && db.View() == AfterCall(was, actor, call, draw);
      assert r.Err? ==> was == AfterCall(was, actor, call, draw);
      var committed := transaction.End(r.Ok?);
      if r.Ok? && !committed {
        r := Err(DatabaseError);
      }
    }
  }
}

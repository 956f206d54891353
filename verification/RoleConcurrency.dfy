/**
 Role administration by many transactions at once: the statements of the service's calls interleave on shared tables,
 each transaction writing its event before it commits. The events of committed transactions, read in the order they
 were written, still rebuild the committed tables.
 */
module RoleConcurrency {
  import opened Prelude
  import opened RoleIntents
  import opened RoleAdministration
  import Service = RoleAdministrationService

  // ---- transactions of the service --------------------------------------------------------------------------------

  /** How far a call has come: its statements run in this order, a no-op leaving by Unchanged and Released. */
  datatype Stage = Begun | Armed | Changed | Unchanged | Recorded | Released

  /** An open transaction; `change` is its uncommitted row change, made when it reached Changed. */
  datatype Running = Running(actor: Actor, call: Call, draw: Draw, stage: Stage, change: Option<RowChange>)

  /** An audit row with the transaction that wrote it, in the order of writing. */
  datatype Entry = Entry(tx: nat, row: AuditRow)

  /** The committed tables, every audit row ever written, and the open transactions. */
  datatype Shared = Shared(
    tables: Tables, journal: seq<Entry>, committed: set<nat>, intents: Intents, running: map<nat, Running>,
    started: set<nat>)

  function BackendOf(r: Running): Backend {
    Backend(r.draw.tx, r.draw.pid, r.actor.tenant)
  }

  function EventRow(r: Running): AuditRow {
    RowOf(r.actor, r.call, r.draw)
  }

  /** The identity join of prepare, at the transaction's reading of the clock. */
  predicate Identified(d: Directory, r: Running) {
    Linked(d, EventOf(r.actor, r.call), r.actor.membershipVersion, r.actor.tenant, r.draw.now)
  }

  /** The rows and unique keys a write locks until its transaction ends. */
  datatype Lock = RoleLock(role: nat) | KeyLock(tenant: nat, key: string) | GrantLock(grant: Grant)
    | MemberLock(member: Member)

  function Locks(actor: Actor, call: Call): set<Lock> {
    match call
    case CreateRole(role, key, _) => {RoleLock(role), KeyLock(actor.tenant, key)}
    case UpdateRole(role, _, _) => {RoleLock(role)}
    case DisableRole(role, _) => {RoleLock(role)}
    case AssignPermission(role, p) => {GrantLock(Grant(actor.tenant, role, PermissionId(p)))}
    case RemovePermission(role, p) => {GrantLock(Grant(actor.tenant, role, PermissionId(p)))}
    case AssignRole(m, role) => {MemberLock(Member(actor.tenant, m, role))}
    case RemoveRole(m, role) => {MemberLock(Member(actor.tenant, m, role))}
  }

  /** A transaction with an uncommitted change. */
  predicate HoldsLocks(r: Running) {
    r.stage == Changed || r.stage == Recorded
  }

  predicate Blocked(s: Shared, tx: nat)
    requires tx in s.running
  {
    exists o :: o in s.running && o != tx && HoldsLocks(s.running[o])
      && Locks(s.running[o].actor, s.running[o].call) * Locks(s.running[tx].actor, s.running[tx].call) != {}
  }

  function ChangeOf(t: Tables, actor: Actor, call: Call): RowChange
    requires Lands(t, actor, call)
  {
    match call
    case CreateRole(role, key, name) => RoleInsert(RoleRow(role, actor.tenant, key, name, Active, 1))
    case UpdateRole(role, _, name) => RoleUpdate(t.roles[role], Service.Renamed(t.roles[role], name))
    case DisableRole(role, _) => RoleUpdate(t.roles[role], Service.Deactivated(t.roles[role]))
    case AssignPermission(role, p) => GrantInsert(Grant(actor.tenant, role, PermissionId(p)))
    case RemovePermission(role, p) => GrantDelete(Grant(actor.tenant, role, PermissionId(p)))
    case AssignRole(m, role) => MemberInsert(Member(actor.tenant, m, role))
    case RemoveRole(m, role) => MemberDelete(Member(actor.tenant, m, role))
  }

  predicate IdInUse(s: Shared, id: nat) {
    exists k :: 0 <= k < |s.journal| && s.journal[k].row.id == id
      && (s.journal[k].tx in s.committed || s.journal[k].tx in s.running)
  }

  /** The tables once a row change is visible. */
  function Visibly(t: Tables, change: Option<RowChange>): Tables {
    match change
    case Some(RoleInsert(n)) => t.(roles := t.roles[n.id := n])
    case Some(RoleUpdate(_, n)) => t.(roles := t.roles[n.id := n])
    case Some(RoleDelete(o)) => t.(roles := t.roles - {o.id})
    case Some(GrantInsert(n)) => t.(grants := t.grants + {n})
    case Some(GrantUpdate(o, n)) => t.(grants := t.grants - {o} + {n})
    case Some(GrantDelete(o)) => t.(grants := t.grants - {o})
    case Some(MemberInsert(n)) => t.(members := t.members + {n})
    case Some(MemberUpdate(o, n)) => t.(members := t.members - {o} + {n})
    case Some(MemberDelete(o)) => t.(members := t.members - {o})
    case None => t
  }

  // ---- statements -------------------------------------------------------------------------------------------------

  datatype Step =
    | Start(actor: Actor, call: Call, draw: Draw)
    | Arm(tx: nat) | Write(tx: nat) | Settle(tx: nat) | Commit(tx: nat) | Rollback(tx: nat)
    | Elsewhere(directory: Directory)

  /** Prepare's share locks: user, session, membership, tenant and target rows stay until the transaction ends. */
  predicate SharedRows(d: Directory, n: Directory, e: RoleEvent, tenant: nat) {
    && (e.user in d.users ==> e.user in n.users && n.users[e.user] == d.users[e.user])
    && (e.session in d.sessions ==> e.session in n.sessions && n.sessions[e.session] == d.sessions[e.session])
    && (e.membership in d.memberships ==>
          e.membership in n.memberships && n.memberships[e.membership] == d.memberships[e.membership])
    && (tenant in d.activeTenants ==> tenant in n.activeTenants)
    && (e.target.Some? && e.target.value in d.memberships ==>
          e.target.value in n.memberships && n.memberships[e.target.value] == d.memberships[e.target.value])
  }

  /**
   Transaction numbers are new and a call refused for its arguments writes nothing; statements run in the order of the
   call; a write waits for locks on what it writes; nobody changes directory rows an armed transaction shares.
   */
  predicate Legal(s: Shared, step: Step) {
    match step
    case Start(actor, call, draw) => draw.tx !in s.started && Admitted(actor, call)
    case Arm(tx) => tx in s.running && s.running[tx].stage == Begun
    case Write(tx) =>
      && tx in s.running && s.running[tx].stage == Armed && Named(s.running[tx].call)
      && (Lands(s.tables, s.running[tx].actor, s.running[tx].call) ==> !Blocked(s, tx))
    case Settle(tx) => tx in s.running && (s.running[tx].stage == Changed || s.running[tx].stage == Unchanged)
    case Commit(tx) => tx in s.running && (s.running[tx].stage == Recorded || s.running[tx].stage == Released)
    case Rollback(tx) => tx in s.running
    case Elsewhere(directory) =>
      forall tx | tx in s.running && s.running[tx].stage != Begun ::
        var r := s.running[tx]; SharedRows(s.tables.directory, directory, EventOf(r.actor, r.call), r.actor.tenant)
  }

  function Abort(s: Shared, tx: nat): Shared {
    s.(running := s.running - {tx}, intents := s.intents - {tx})
  }

  function Advance(s: Shared, tx: nat, stage: Stage, intents: Intents): Shared
    requires tx in s.running
  {
    s.(running := s.running[tx := s.running[tx].(stage := stage)], intents := intents)
  }

  function Next(s: Shared, step: Step): Shared
    requires Legal(s, step)
  {
    match step
    case Start(actor, call, draw) =>
      s.(running := s.running[draw.tx := Running(actor, call, draw, Begun, None)], started := s.started + {draw.tx})
    case Arm(tx) =>
      var r := s.running[tx];
      (match Prepare(s.intents, BackendOf(r), EventRow(r), Identified(s.tables.directory, r))
       case Some(n) => Advance(s, tx, Armed, n)
       case None => Abort(s, tx))
    case Write(tx) =>
      var r := s.running[tx];
      if Lands(s.tables, r.actor, r.call) then
        (match Attest(s.intents, BackendOf(r), ChangeOf(s.tables, r.actor, r.call))
         case Some(n) =>
           s.(running := s.running[tx := r.(stage := Changed, change := Some(ChangeOf(s.tables, r.actor, r.call)))],
             intents := n)
         case None => Abort(s, tx))
      else if !Changes(s.tables, r.actor, r.call) then Advance(s, tx, Unchanged, s.intents)
      else Abort(s, tx)
    case Settle(tx) =>
      var r := s.running[tx];
      if r.stage == Changed then
        (match Consume(s.intents, BackendOf(r), EventRow(r))
         case Some(n) =>
           if LinksHold(s.tables.directory, EventOf(r.actor, r.call)) && !IdInUse(s, r.draw.event)
           then Advance(s, tx, Recorded, n).(journal := s.journal + [Entry(tx, EventRow(r))])
           else Abort(s, tx)
         case None => Abort(s, tx))
      else
        (match Cancel(s.intents, BackendOf(r), r.draw.event)
         case Some(n) => Advance(s, tx, Released, n)
         case None => Abort(s, tx))
    case Commit(tx) =>
      var r := s.running[tx];
      if !MayCommit(s.intents, BackendOf(r)) then Abort(s, tx)
      else
        s.(tables := Visibly(s.tables, r.change), committed := s.committed + {tx}, running := s.running - {tx})
    case Rollback(tx) => Abort(s, tx)
    case Elsewhere(directory) => s.(tables := s.tables.(directory := directory))
  }

  predicate LegalRun(s: Shared, steps: seq<Step>)
    decreases |steps|
  {
    steps == [] || (Legal(s, steps[0]) && LegalRun(Next(s, steps[0]), steps[1..]))
  }

  function Run(s: Shared, steps: seq<Step>): Shared
    requires LegalRun(s, steps)
    decreases |steps|
  {
    if steps == [] then s else Run(Next(s, steps[0]), steps[1..])
  }

  /** The audit log as committed transactions left it, in the order its rows were written. */
  function CommittedLog(journal: seq<Entry>, committed: set<nat>): seq<LogEntry> {
    if journal == [] then []
    else
      var last := journal[|journal| - 1];
      CommittedLog(journal[..|journal| - 1], committed) + (if last.tx in committed then [Role(last.row)] else [])
  }

  // ---- events about different things commute ------------------------------------------------------------------------

  datatype Subject = OfRole(role: nat) | OfGrant(role: nat, permission: Option<string>)
    | OfMember(target: Option<nat>, role: nat)

  function SubjectOf(e: RoleEvent): Subject {
    if NeedsPermission(e.kind) then OfGrant(e.role, e.permission)
    else if NeedsTarget(e.kind) then OfMember(e.target, e.role)
    else OfRole(e.role)
  }

  lemma RoleEventsCommute(r: Rebuilt, e: RoleEvent, f: RoleEvent)
    requires SubjectOf(e).OfRole? && SubjectOf(f).OfRole? && e.role != f.role
    ensures Apply(Apply(r, e), f) == Apply(Apply(r, f), e)
  {
  }

  lemma RelationEventsCommute(r: Rebuilt, e: RoleEvent, f: RoleEvent)
    requires !SubjectOf(e).OfRole? && !SubjectOf(f).OfRole? && SubjectOf(e) != SubjectOf(f)
    ensures Apply(Apply(r, e), f) == Apply(Apply(r, f), e)
  {
  }

  lemma MixedEventsCommute(r: Rebuilt, e: RoleEvent, f: RoleEvent)
    requires SubjectOf(e).OfRole? && !SubjectOf(f).OfRole?
    ensures Apply(Apply(r, e), f) == Apply(Apply(r, f), e)
  {
  }

  lemma ApplyCommutes(r: Rebuilt, e: RoleEvent, f: RoleEvent)
    requires SubjectOf(e) != SubjectOf(f)
    ensures Apply(Apply(r, e), f) == Apply(Apply(r, f), e)
  {
    SubjectRole(e);
    SubjectRole(f);
    hide Apply, SubjectOf;
    if SubjectOf(e).OfRole? && SubjectOf(f).OfRole? {
      RoleEventsCommute(r, e, f);
    } else if SubjectOf(e).OfRole? {
      MixedEventsCommute(r, e, f);
    } else if SubjectOf(f).OfRole? {
      MixedEventsCommute(r, f, e);
    } else {
      RelationEventsCommute(r, e, f);
    }
  }

  lemma SubjectRole(e: RoleEvent)
    ensures SubjectOf(e).OfRole? ==> SubjectOf(e) == OfRole(e.role)
  {
  }

  lemma ReplayAppended(log: seq<LogEntry>, row: AuditRow)
    ensures Replay(log + [Role(row)]) == Apply(Replay(log), row.event)
  {
    assert (log + [Role(row)])[..|log + [Role(row)]| - 1] == log;
  }

  /** No entry of this transaction, or one, about something no later entry is about. */
  ghost predicate Movable(journal: seq<Entry>, tx: nat) {
    && (forall j, k | 0 <= j < k < |journal| :: journal[j].tx != journal[k].tx)
    && (forall j, k | 0 <= j < k < |journal| && journal[j].tx == tx ::
       SubjectOf(journal[j].row.event) != SubjectOf(journal[k].row.event))
  }

  lemma {:induction false} LogWithout(journal: seq<Entry>, committed: set<nat>, tx: nat)
    requires forall k | 0 <= k < |journal| :: journal[k].tx != tx
    ensures CommittedLog(journal, committed + {tx}) == CommittedLog(journal, committed)
  {
    if journal != [] {
      LogWithout(journal[..|journal| - 1], committed, tx);
    }
  }

  /** Committing a transaction puts its event somewhere in the log; replaying it there is replaying it last. */
  lemma {:induction false} LateCommitReplays(journal: seq<Entry>, committed: set<nat>, tx: nat, at: nat)
    requires Movable(journal, tx) && tx !in committed && at < |journal| && journal[at].tx == tx
    ensures Replay(CommittedLog(journal, committed + {tx})) ==
      Apply(Replay(CommittedLog(journal, committed)), journal[at].row.event)
  {
    hide Apply, SubjectOf;
    var n := |journal| - 1;
    var front, last := journal[..n], journal[n];
    if at == n {
      LogWithout(front, committed, tx);
      assert CommittedLog(journal, committed) == CommittedLog(front, committed);
      ReplayAppended(CommittedLog(front, committed), last.row);
    } else {
      assert front[at] == journal[at];
      LateCommitReplays(front, committed, tx, at);
      if last.tx in committed {
        ReplayAppended(CommittedLog(front, committed + {tx}), last.row);
        ReplayAppended(CommittedLog(front, committed), last.row);
        ApplyCommutes(Replay(CommittedLog(front, committed)), journal[at].row.event, last.row.event);
      } else {
        assert CommittedLog(front, committed) + [] == CommittedLog(front, committed);
        assert CommittedLog(front, committed + {tx}) + [] == CommittedLog(front, committed + {tx});
      }
    }
  }

  // ---- writes under different locks do not disturb each other -----------------------------------------------------

  lemma LandsApart(t: Tables, a: Actor, c: Call, b: Actor, d: Call)
    requires WellKeyed(t) && Lands(t, a, c) && Lands(t, b, d) && Locks(a, c) * Locks(b, d) == {}
    ensures SubjectOf(EventOf(a, c)) != SubjectOf(EventOf(b, d))
  {
    hide KeyTaken, PermissionId;
    var mine, theirs := Locks(a, c), Locks(b, d);
    forall l | l in mine
      ensures l !in theirs
    {
      assert l in theirs ==> l in mine * theirs;
    }
  }

  lemma KeyStaysFree(t: Tables, a: Actor, c: Call, tenant: nat, key: string)
    requires Lands(t, a, c) && !KeyTaken(t, tenant, key) && KeyLock(tenant, key) !in Locks(a, c)
    ensures !KeyTaken(Effect(t, a, c), tenant, key)
  {
    hide PermissionId;
  }

  /** A write still meets its own demands after another one, under other locks, has been committed. */
  lemma EffectKeepsLands(t: Tables, a: Actor, c: Call, b: Actor, d: Call)
    requires Lands(t, a, c) && Lands(t, b, d) && Locks(a, c) * Locks(b, d) == {}
    ensures Lands(Effect(t, a, c), b, d) && ChangeOf(Effect(t, a, c), b, d) == ChangeOf(t, b, d)
  {
    hide KeyTaken, PermissionId;
    var mine, theirs := Locks(a, c), Locks(b, d);
    forall l | l in theirs
      ensures l !in mine
    {
      assert l in mine ==> l in mine * theirs;
    }
    if d.CreateRole? {
      assert KeyLock(b.tenant, d.key) in theirs;
      KeyStaysFree(t, a, c, b.tenant, d.key);
    }
  }

  /** Making a write's row change visible is its effect on the tables. */
  lemma VisiblyIsEffect(t: Tables, a: Actor, c: Call)
    requires WellKeyed(t) && Lands(t, a, c)
    ensures Visibly(t, Some(ChangeOf(t, a, c))) == Effect(t, a, c)
  {
    hide KeyTaken, PermissionId;
  }

  lemma ChangeDescribed(t: Tables, r: Running)
    requires WellKeyed(t) && Lands(t, r.actor, r.call)
    ensures Describes(EventRow(r), ChangeOf(t, r.actor, r.call), r.actor.tenant)
  {
    hide KeyTaken, PermissionId;
  }

  // ---- invariants -------------------------------------------------------------------------------------------------

  /** The committed tables are keyed, and the committed log rebuilds them. */
  ghost predicate Rebuilds(s: Shared) {
    WellKeyed(s.tables) && Replay(CommittedLog(s.journal, s.committed)) == Project(s.tables)
  }

  /** A transaction's uncommitted change is still the one its call would make now; without locks it has none. */
  predicate InPlace(t: Tables, r: Running) {
    if HoldsLocks(r) then Lands(t, r.actor, r.call) && r.change == Some(ChangeOf(t, r.actor, r.call))
    else r.change == None
  }

  ghost predicate Landed(s: Shared) {
    forall tx | tx in s.running :: InPlace(s.tables, s.running[tx])
  }

  predicate Disjoint(a: Running, b: Running) {
    Locks(a.actor, a.call) * Locks(b.actor, b.call) == {}
  }

  ghost predicate Exclusive(s: Shared) {
    forall x, y | x in s.running && y in s.running && x != y && HoldsLocks(s.running[x]) && HoldsLocks(s.running[y]) ::
      Disjoint(s.running[x], s.running[y])
  }

  /** Each transaction has written at most one row, an open one exactly when it has reached Recorded. */
  ghost predicate Journaled(s: Shared) {
    && (forall k | 0 <= k < |s.journal| :: s.journal[k].tx in s.started)
    && (forall j, k | 0 <= j < k < |s.journal| :: s.journal[j].tx != s.journal[k].tx)
    && (forall tx | tx in s.running && s.running[tx].stage == Recorded ::
       Entry(tx, EventRow(s.running[tx])) in s.journal)
    && (forall k | 0 <= k < |s.journal| && s.journal[k].tx in s.running ::
          s.running[s.journal[k].tx].stage == Recorded && s.journal[k].row == EventRow(s.running[s.journal[k].tx]))
  }

  /** No row written after an open transaction's row is about the same thing. */
  ghost predicate Apart(s: Shared) {
    forall j, k | 0 <= j < k < |s.journal| && s.journal[j].tx in s.running ::
      SubjectOf(s.journal[j].row.event) != SubjectOf(s.journal[k].row.event)
  }

  /** A transaction's intent is what its stage says, under its own number. */
  predicate Covered(intents: Intents, tx: nat, r: Running) {
    && r.draw.tx == tx
    && match r.stage
       case Armed => Service.Armed(intents, BackendOf(r), EventRow(r), false)
       case Unchanged => Service.Armed(intents, BackendOf(r), EventRow(r), false)
       case Changed => Service.Armed(intents, BackendOf(r), EventRow(r), true)
       case _ => tx !in intents
  }

  ghost predicate Protected(s: Shared) {
    && s.running.Keys <= s.started && s.committed <= s.started && s.running.Keys !! s.committed
    && s.intents.Keys <= s.running.Keys
    && forall tx | tx in s.running :: Covered(s.intents, tx, s.running[tx])
  }

  /** What a transaction has checked of its call and, once armed, of its caller still holds. */
  predicate Joined(d: Directory, r: Running) {
    && Admitted(r.actor, r.call)
    && (HoldsLocks(r) ==> Named(r.call))
    && (r.stage != Begun ==> Identified(d, r))
  }

  ghost predicate Linking(s: Shared) {
    forall tx | tx in s.running :: Joined(s.tables.directory, s.running[tx])
  }

  ghost predicate Good(s: Shared) {
    Rebuilds(s) && Landed(s) && Exclusive(s) && Journaled(s) && Apart(s) && Protected(s) && Linking(s)
  }

  // ---- step by step -----------------------------------------------------------------------------------------------

  lemma AbortGood(s: Shared, tx: nat)
    requires Good(s)
    ensures Good(Abort(s, tx))
  {
    hide InPlace, Disjoint, HoldsLocks, EventRow, SubjectOf, WellKeyed, Covered, Joined;
    AbortProtected(s, tx);
  }

  lemma AbortProtected(s: Shared, tx: nat)
    requires Protected(s)
    ensures Protected(Abort(s, tx))
  {
    hide EventRow;
  }

  /** The same transaction, further on. */
  predicate SameCall(r: Running, n: Running) {
    n.actor == r.actor && n.call == r.call && n.draw == r.draw
  }

  /** Two intent tables that differ in one transaction's intent at most. */
  ghost predicate AgreeElsewhere(a: Intents, b: Intents, tx: nat) {
    forall t | t != tx :: (t in a <==> t in b) && (t in a ==> a[t] == b[t])
  }

  lemma OthersCovered(a: Intents, b: Intents, tx: nat, t: nat, r: Running)
    requires AgreeElsewhere(a, b, tx) && t != tx && Covered(a, t, r)
    ensures Covered(b, t, r)
  {
    hide EventRow;
  }

  lemma MoveProtected(s: Shared, tx: nat, n: Running, intents: Intents)
    requires Protected(s) && tx in s.running && Covered(intents, tx, n) && AgreeElsewhere(s.intents, intents, tx)
    ensures Protected(s.(running := s.running[tx := n], intents := intents))
  {
    forall t | t in s.running && t != tx
      ensures Covered(intents, t, s.running[t])
    {
      OthersCovered(s.intents, intents, tx, t, s.running[t]);
    }
    hide Covered;
  }

  /**
   Moving one transaction on keeps everything, if its change and intent are right and it takes no lock another holds.
   */
  lemma MoveGood(s: Shared, tx: nat, n: Running, intents: Intents)
    requires Good(s) && tx in s.running && SameCall(s.running[tx], n)
    requires n.stage != Recorded && s.running[tx].stage != Recorded
    requires InPlace(s.tables, n) && Covered(intents, tx, n) && AgreeElsewhere(s.intents, intents, tx)
    requires Joined(s.tables.directory, n)
    requires HoldsLocks(n) && !HoldsLocks(s.running[tx]) ==> !Blocked(s, tx)
    ensures Good(s.(running := s.running[tx := n], intents := intents))
  {
    hide InPlace, Covered, EventRow, SubjectOf, WellKeyed, Locks, Project, CommittedLog, AgreeElsewhere, Joined;
    MoveProtected(s, tx, n, intents);
    hide Protected;
    MoveExclusive(s, tx, n);
    hide Exclusive, Blocked, HoldsLocks;
  }

  lemma MoveExclusive(s: Shared, tx: nat, n: Running)
    requires Exclusive(s) && tx in s.running && SameCall(s.running[tx], n)
    requires HoldsLocks(n) && !HoldsLocks(s.running[tx]) ==> !Blocked(s, tx)
    ensures Exclusive(s.(running := s.running[tx := n]))
  {
    hide Locks;
    forall o | o in s.running && o != tx && HoldsLocks(n) && HoldsLocks(s.running[o])
      ensures Disjoint(s.running[o], n) && Disjoint(n, s.running[o])
    {
      if HoldsLocks(s.running[tx]) {
        assert Disjoint(s.running[o], s.running[tx]);
      }
    }
  }

  /** The state once a transaction has begun. */
  function Beginning(s: Shared, r: Running): Shared {
    s.(running := s.running[r.draw.tx := r], started := s.started + {r.draw.tx})
  }

  lemma FreshProtected(s: Shared, r: Running)
    requires Protected(s) && Linking(s) && r.draw.tx !in s.started && r.stage == Begun && Admitted(r.actor, r.call)
    ensures Protected(Beginning(s, r)) && Linking(Beginning(s, r))
  {
    assert Joined(s.tables.directory, r) && Covered(s.intents, r.draw.tx, r);
    hide Joined, Covered;
  }

  lemma FreshJournaled(s: Shared, r: Running)
    requires Journaled(s) && Apart(s) && r.draw.tx !in s.started && r.stage == Begun
    ensures Journaled(Beginning(s, r)) && Apart(Beginning(s, r))
  {
    hide EventRow, SubjectOf;
  }

  /** A transaction that has done nothing yet. */
  lemma FreshGood(s: Shared, r: Running)
    requires Good(s) && r.draw.tx !in s.started && r.stage == Begun && r.change == None && Admitted(r.actor, r.call)
    ensures Good(Beginning(s, r))
  {
    FreshProtected(s, r);
    FreshJournaled(s, r);
    assert InPlace(s.tables, r);
    hide Protected, Linking, Journaled, Apart, InPlace, WellKeyed, Project, CommittedLog, Disjoint, Admitted;
  }

  lemma StartGood(s: Shared, actor: Actor, call: Call, draw: Draw)
    requires Good(s) && Legal(s, Start(actor, call, draw))
    ensures Good(Next(s, Start(actor, call, draw)))
  {
    hide Good, SharedRows;
    FreshGood(s, Running(actor, call, draw, Begun, None));
  }

  /** The state once an intent is armed. */
  function Arming(s: Shared, tx: nat): Shared
    requires tx in s.running
  {
    var r := s.running[tx];
    Advance(s, tx, Armed, s.intents[tx := Intent(r.draw.pid, EventRow(r), r.actor.tenant, false)])
  }

  lemma ArmLeaves(s: Shared, tx: nat)
    requires Protected(s) && Legal(s, Arm(tx))
    ensures Next(s, Arm(tx)) ==
      if Identified(s.tables.directory, s.running[tx]) then Arming(s, tx) else Abort(s, tx)
  {
    var r := s.running[tx];
    assert Covered(s.intents, tx, r);
    Service.EventShaped(r.actor, r.call);
    hide EventOf, Identified, WellShaped, SharedRows, Covered, Admitted, Catalogued;
  }

  lemma ArmingGood(s: Shared, tx: nat)
    requires Good(s) && tx in s.running && s.running[tx].stage == Begun
    requires Identified(s.tables.directory, s.running[tx])
    ensures Good(Arming(s, tx))
  {
    hide EventOf, EventRow, Lands, ChangeOf, Blocked, Identified, Admitted, Named, Rebuilds, Exclusive, Journaled;
    hide Apart;
    var r := s.running[tx];
    var n := r.(stage := Armed);
    var intents := s.intents[tx := Intent(r.draw.pid, EventRow(r), r.actor.tenant, false)];
    assert InPlace(s.tables, r) && Covered(s.intents, tx, r);
    SameRow(s.tables.directory, r, n);
    assert InPlace(s.tables, n) && Covered(intents, tx, n) && Joined(s.tables.directory, n);
    hide Good, InPlace, Covered, Joined;
    MoveGood(s, tx, n, intents);
  }

  lemma ArmGood(s: Shared, tx: nat)
    requires Good(s) && Legal(s, Arm(tx))
    ensures Good(Next(s, Arm(tx)))
  {
    ArmLeaves(s, tx);
    hide Good, Next, Arming, Abort, Identified, EventOf, SharedRows;
    AbortGood(s, tx);
    if Identified(s.tables.directory, s.running[tx]) {
      ArmingGood(s, tx);
    }
  }

  /** A legal write that lands is attested by the trigger. */
  lemma WriteAttested(s: Shared, tx: nat)
    requires Good(s) && Legal(s, Write(tx)) && Lands(s.tables, s.running[tx].actor, s.running[tx].call)
    ensures var r := s.running[tx];
      Attest(s.intents, BackendOf(r), ChangeOf(s.tables, r.actor, r.call))
      == Some(s.intents[tx := Intent(r.draw.pid, EventRow(r), r.actor.tenant, true)])
  {
    hide Lands, ChangeOf, Describes, Attest, WellKeyed, EventOf;
    var r := s.running[tx];
    assert Covered(s.intents, tx, r);
    ChangeDescribed(s.tables, r);
    Service.ArmedAttests(s.intents, BackendOf(r), EventRow(r), ChangeOf(s.tables, r.actor, r.call));
  }

  /** The state once a write that lands is attested. */
  function Changing(s: Shared, tx: nat): Shared
    requires tx in s.running && Lands(s.tables, s.running[tx].actor, s.running[tx].call)
  {
    var r := s.running[tx];
    s.(running := s.running[tx := r.(stage := Changed, change := Some(ChangeOf(s.tables, r.actor, r.call)))],
       intents := s.intents[tx := Intent(r.draw.pid, EventRow(r), r.actor.tenant, true)])
  }

  lemma WriteLeaves(s: Shared, tx: nat)
    requires Good(s) && Legal(s, Write(tx))
    ensures var r := s.running[tx];
      Next(s, Write(tx)) ==
      if Lands(s.tables, r.actor, r.call) then Changing(s, tx)
      else if !Changes(s.tables, r.actor, r.call) then Advance(s, tx, Unchanged, s.intents)
      else Abort(s, tx)
  {
    hide Good, EventOf, EventRow, Lands, ChangeOf, Attest, Changes, Blocked, SharedRows, BackendOf;
    if Lands(s.tables, s.running[tx].actor, s.running[tx].call) {
      WriteAttested(s, tx);
    }
  }

  lemma ChangingGood(s: Shared, tx: nat)
    requires Good(s) && tx in s.running && s.running[tx].stage == Armed && !Blocked(s, tx)
    requires Lands(s.tables, s.running[tx].actor, s.running[tx].call) && Named(s.running[tx].call)
    ensures Good(Changing(s, tx))
  {
    hide EventRow, Lands, ChangeOf, Blocked, Identified, Admitted, Named, Rebuilds, Exclusive, Journaled, Apart;
    var r := s.running[tx];
    assert Covered(s.intents, tx, r) && Joined(s.tables.directory, r);
    var n := r.(stage := Changed, change := Some(ChangeOf(s.tables, r.actor, r.call)));
    var intents := s.intents[tx := Intent(r.draw.pid, EventRow(r), r.actor.tenant, true)];
    SameRow(s.tables.directory, r, n);
    assert InPlace(s.tables, n) && Covered(intents, tx, n) && Joined(s.tables.directory, n);
    hide Good, InPlace, Covered, Joined;
    MoveGood(s, tx, n, intents);
  }

  lemma SameRow(d: Directory, r: Running, n: Running)
    requires SameCall(r, n)
    ensures EventRow(n) == EventRow(r) && (Identified(d, n) <==> Identified(d, r))
  {
  }

  lemma NoChangeMoves(s: Shared, tx: nat)
    requires Good(s) && tx in s.running && s.running[tx].stage == Armed
    ensures Good(Advance(s, tx, Unchanged, s.intents))
  {
    hide EventRow, Lands, ChangeOf, Blocked, Identified, Admitted, Named, Rebuilds, Exclusive, Journaled, Apart;
    var r := s.running[tx];
    var n := r.(stage := Unchanged);
    assert InPlace(s.tables, r) && Covered(s.intents, tx, r) && Joined(s.tables.directory, r);
    SameRow(s.tables.directory, r, n);
    assert InPlace(s.tables, n) && Covered(s.intents, tx, n) && Joined(s.tables.directory, n);
    hide Good, InPlace, Covered, Joined;
    MoveGood(s, tx, n, s.intents);
  }

  lemma WriteGood(s: Shared, tx: nat)
    requires Good(s) && Legal(s, Write(tx))
    ensures Good(Next(s, Write(tx)))
  {
    hide Good, Next, Lands, Changes, Blocked, SharedRows, Changing, Advance, Abort;
    WriteLeaves(s, tx);
    if Lands(s.tables, s.running[tx].actor, s.running[tx].call) {
      ChangingGood(s, tx);
    } else {
      NoChangeMoves(s, tx);
      AbortGood(s, tx);
    }
  }

  lemma SettleApart(s: Shared, tx: nat)
    requires Rebuilds(s) && Landed(s) && Exclusive(s) && Journaled(s)
    requires tx in s.running && s.running[tx].stage == Changed
    ensures forall j | 0 <= j < |s.journal| && s.journal[j].tx in s.running ::
      SubjectOf(s.journal[j].row.event) != SubjectOf(EventRow(s.running[tx]).event)
  {
    forall j | 0 <= j < |s.journal| && s.journal[j].tx in s.running
      ensures SubjectOf(s.journal[j].row.event) != SubjectOf(EventRow(s.running[tx]).event)
    {
      hide Lands, Locks, SubjectOf, EventOf, WellKeyed, ChangeOf, CommittedLog, Project;
      var a, b := s.running[s.journal[j].tx], s.running[tx];
      assert InPlace(s.tables, a) && InPlace(s.tables, b) && Disjoint(a, b);
      LandsApart(s.tables, a.actor, a.call, b.actor, b.call);
    }
  }

  /** The state once the row of an attested change is written. */
  function Recording(s: Shared, tx: nat): Shared
    requires tx in s.running
  {
    var r := s.running[tx];
    s.(running := s.running[tx := r.(stage := Recorded)], intents := s.intents - {tx},
      journal := s.journal + [Entry(tx, EventRow(r))])
  }

  lemma RunningUncommitted(s: Shared, tx: nat)
    requires Protected(s) && tx in s.running
    ensures tx !in s.committed && tx in s.started
  {
  }

  lemma RecordRebuilds(s: Shared, tx: nat)
    requires Rebuilds(s) && tx in s.running && tx !in s.committed
    ensures Rebuilds(Recording(s, tx))
  {
    hide EventRow, WellKeyed, Project;
    var journal := Recording(s, tx).journal;
    assert journal[..|journal| - 1] == s.journal;
    assert CommittedLog(s.journal, s.committed) + [] == CommittedLog(s.journal, s.committed);
  }

  lemma RecordLanded(s: Shared, tx: nat)
    requires Landed(s) && tx in s.running && s.running[tx].stage == Changed
    ensures Landed(Recording(s, tx))
  {
    hide EventRow, Lands, ChangeOf;
    assert InPlace(s.tables, s.running[tx]);
  }

  lemma RecordJournaled(s: Shared, tx: nat)
    requires Journaled(s) && tx in s.running && s.running[tx].stage == Changed && tx in s.started
    ensures Journaled(Recording(s, tx))
  {
    hide EventOf;
  }

  lemma RecordProtected(s: Shared, tx: nat)
    requires Protected(s) && tx in s.running && s.running[tx].stage == Changed
    ensures Protected(Recording(s, tx))
  {
    var n := s.running[tx].(stage := Recorded);
    assert Covered(s.intents, tx, s.running[tx]);
    assert Covered(s.intents - {tx}, tx, n);
    hide Covered, EventRow;
    MoveProtected(s, tx, n, s.intents - {tx});
  }

  lemma RecordApart(s: Shared, tx: nat)
    requires Apart(s) && tx in s.running
    requires forall j | 0 <= j < |s.journal| && s.journal[j].tx in s.running ::
      SubjectOf(s.journal[j].row.event) != SubjectOf(EventRow(s.running[tx]).event)
    ensures Apart(Recording(s, tx))
  {
    hide SubjectOf, EventRow;
  }

  /** Writing the row of an attested change. */
  lemma RecordGood(s: Shared, tx: nat)
    requires Good(s) && tx in s.running && s.running[tx].stage == Changed
    ensures Good(Recording(s, tx))
  {
    hide Rebuilds, Landed, Exclusive, Journaled, Apart, Protected, Linking, SubjectOf, EventRow;
    SettleApart(s, tx);
    RunningUncommitted(s, tx);
    RecordRebuilds(s, tx);
    RecordLanded(s, tx);
    RecordExclusive(s, tx);
    RecordJournaled(s, tx);
    RecordApart(s, tx);
    RecordProtected(s, tx);
    RecordLinking(s, tx);
  }

  lemma RecordLinking(s: Shared, tx: nat)
    requires Linking(s) && tx in s.running && s.running[tx].stage == Changed
    ensures Linking(Recording(s, tx))
  {
    hide EventRow, Identified, Admitted, Named;
    assert Joined(s.tables.directory, s.running[tx]);
    SameRow(s.tables.directory, s.running[tx], s.running[tx].(stage := Recorded));
  }

  lemma RecordExclusive(s: Shared, tx: nat)
    requires Exclusive(s) && tx in s.running && s.running[tx].stage == Changed
    ensures Exclusive(Recording(s, tx))
  {
    hide EventRow, Blocked;
    MoveExclusive(s, tx, s.running[tx].(stage := Recorded));
  }

  /** What settling leaves in the intent table: nothing of this transaction's, or a refusal. */
  lemma SettleIntents(s: Shared, tx: nat)
    requires Protected(s) && tx in s.running
    ensures s.running[tx].stage == Changed ==>
      Consume(s.intents, BackendOf(s.running[tx]), EventRow(s.running[tx])) == Some(s.intents - {tx})
    ensures s.running[tx].stage == Unchanged ==>
      Cancel(s.intents, BackendOf(s.running[tx]), s.running[tx].draw.event) == Some(s.intents - {tx})
  {
    hide Consume, Cancel, EventOf;
    var r := s.running[tx];
    assert Covered(s.intents, tx, r);
    Service.ConsumeTakesOwn(s.intents, BackendOf(r), EventRow(r));
    Service.CancelTakesOwn(s.intents, BackendOf(r), r.draw.event);
  }

  lemma ReleaseGood(s: Shared, tx: nat)
    requires Good(s) && tx in s.running && s.running[tx].stage == Unchanged
    ensures Good(Advance(s, tx, Released, s.intents - {tx}))
  {
    hide EventRow, Lands, ChangeOf, Rebuilds, Exclusive, Journaled, Apart, Blocked, Identified, Admitted, Named;
    var n := s.running[tx].(stage := Released);
    SameRow(s.tables.directory, s.running[tx], n);
    assert InPlace(s.tables, s.running[tx]) && Covered(s.intents, tx, s.running[tx])
      && Joined(s.tables.directory, s.running[tx]);
    assert Joined(s.tables.directory, n);
    assert InPlace(s.tables, n) && Covered(s.intents - {tx}, tx, n);
    hide Good, InPlace, Covered, Blocked;
    MoveGood(s, tx, n, s.intents - {tx});
  }

  /** The share locks kept what prepare joined, so the guard finds its links. */
  lemma SettleLinked(s: Shared, tx: nat)
    requires Linking(s) && tx in s.running && s.running[tx].stage != Begun
    ensures LinksHold(s.tables.directory, EventOf(s.running[tx].actor, s.running[tx].call))
  {
    var r := s.running[tx];
    assert Joined(s.tables.directory, r);
    hide EventOf, Admitted, Named;
    Service.LinkedHolds(s.tables.directory, EventOf(r.actor, r.call), r.actor.membershipVersion, r.actor.tenant,
      r.draw.now);
  }

  lemma SettleLeaves(s: Shared, tx: nat)
    requires Good(s) && Legal(s, Settle(tx))
    ensures var r := s.running[tx];
      Next(s, Settle(tx)) ==
      if r.stage == Unchanged then Advance(s, tx, Released, s.intents - {tx})
      else if IdInUse(s, r.draw.event) then Abort(s, tx)
      else Recording(s, tx)
  {
    SettleIntents(s, tx);
    SettleLinked(s, tx);
    hide Good, EventOf, EventRow, Consume, Cancel, LinksHold, IdInUse, BackendOf, SharedRows, Admitted, Named, Lands;
    hide Blocked, Prepare, Attest, Visibly;
  }

  lemma SettleGood(s: Shared, tx: nat)
    requires Good(s) && Legal(s, Settle(tx))
    ensures Good(Next(s, Settle(tx)))
  {
    hide Good, Next, IdInUse, SharedRows, Advance, Abort, Recording;
    SettleLeaves(s, tx);
    AbortGood(s, tx);
    if s.running[tx].stage == Changed {
      RecordGood(s, tx);
    } else {
      ReleaseGood(s, tx);
    }
  }

  /**
   A commit makes the change visible, and the log, with its row wherever it was written, still rebuilds the tables.
   */
  lemma CommitRebuilds(s: Shared, tx: nat)
    requires Rebuilds(s) && Landed(s) && Journaled(s) && Apart(s) && Protected(s)
    requires tx in s.running && s.running[tx].stage == Recorded
    ensures var r := s.running[tx];
      && Lands(s.tables, r.actor, r.call)
      && Visibly(s.tables, r.change) == Effect(s.tables, r.actor, r.call)
      && WellKeyed(Effect(s.tables, r.actor, r.call))
      && Replay(CommittedLog(s.journal, s.committed + {tx})) == Project(Effect(s.tables, r.actor, r.call))
  {
    var r := s.running[tx];
    assert InPlace(s.tables, r);
    RunningUncommitted(s, tx);
    assert Movable(s.journal, tx);
    hide Lands, ChangeOf, WellKeyed, Effect, Visibly, Project, SubjectOf, CommittedLog, Movable, Apply, EventOf;
    hide Covered;
    VisiblyIsEffect(s.tables, r.actor, r.call);
    EffectKeyed(s.tables, r.actor, r.call);
    EffectIsApply(s.tables, r.actor, r.call);
    var at :| 0 <= at < |s.journal| && s.journal[at] == Entry(tx, EventRow(r));
    LateCommitReplays(s.journal, s.committed, tx, at);
  }

  lemma CommitLanded(s: Shared, tx: nat)
    requires Good(s) && tx in s.running && s.running[tx].stage == Recorded
    requires Lands(s.tables, s.running[tx].actor, s.running[tx].call)
    ensures Landed(Committing(s, tx, Effect(s.tables, s.running[tx].actor, s.running[tx].call)))
  {
    var r := s.running[tx];
    forall o | o in s.running && o != tx
      ensures InPlace(Effect(s.tables, r.actor, r.call), s.running[o])
    {
      var q := s.running[o];
      assert InPlace(s.tables, q);
      if HoldsLocks(q) {
        assert Disjoint(r, q);
        hide Lands, ChangeOf, Effect, Locks, Good;
        EffectKeepsLands(s.tables, r.actor, r.call, q.actor, q.call);
      }
    }
    hide InPlace, Effect, Good, Lands;
  }

  /** What a commit leaves, given the tables it makes visible. */
  function Committing(s: Shared, tx: nat, t: Tables): Shared {
    s.(tables := t, committed := s.committed + {tx}, running := s.running - {tx})
  }

  lemma CommitRest(s: Shared, tx: nat, t: Tables)
    requires Exclusive(s) && Journaled(s) && Apart(s) && Protected(s) && Linking(s) && tx in s.running
      && tx !in s.intents
    requires t.directory == s.tables.directory
    ensures var n := Committing(s, tx, t); Exclusive(n) && Journaled(n) && Apart(n) && Protected(n) && Linking(n)
  {
    hide Joined, Covered, HoldsLocks, Disjoint, EventRow, SubjectOf;
  }

  lemma EffectSameDirectory(t: Tables, a: Actor, c: Call)
    requires Lands(t, a, c)
    ensures c.UpdateRole? || c.DisableRole? ==> c.role in t.roles
    ensures Effect(t, a, c).directory == t.directory
  {
    hide KeyTaken, PermissionId;
  }

  lemma NoChangeGood(s: Shared, tx: nat)
    requires Good(s) && tx in s.running && s.running[tx].stage == Released
    ensures Rebuilds(Committing(s, tx, s.tables)) && Landed(Committing(s, tx, s.tables))
  {
    hide InPlace, Covered, EventRow, WellKeyed, Project, CommittedLog;
    LogWithout(s.journal, s.committed, tx);
  }

  /** A transaction that may commit has no intent, and either its event or no change. */
  lemma CommitFinds(s: Shared, tx: nat)
    requires Landed(s) && Protected(s) && Legal(s, Step.Commit(tx))
    ensures s.running[tx].draw.tx == tx && tx !in s.intents
    ensures s.running[tx].stage == Released ==> s.running[tx].change == None
  {
    var r := s.running[tx];
    assert InPlace(s.tables, r) && Covered(s.intents, tx, r);
    hide EventRow, Lands, ChangeOf, SharedRows;
  }

  lemma CommitShows(s: Shared, tx: nat)
    requires Legal(s, Step.Commit(tx)) && s.running[tx].draw.tx == tx && tx !in s.intents
    ensures Next(s, Step.Commit(tx)) == Committing(s, tx, Visibly(s.tables, s.running[tx].change))
  {
    hide SharedRows, Visibly, Admitted, Named, Blocked, Lands;
  }

  lemma CommitLeaves(s: Shared, tx: nat)
    requires Good(s) && Legal(s, Step.Commit(tx))
    ensures var r := s.running[tx];
      && tx !in s.intents
      && (r.stage == Recorded ==> Lands(s.tables, r.actor, r.call))
      && Next(s, Step.Commit(tx)) ==
         Committing(s, tx, if r.stage == Recorded then Effect(s.tables, r.actor, r.call) else s.tables)
  {
    CommitFinds(s, tx);
    CommitShows(s, tx);
    if s.running[tx].stage == Recorded {
      hide Next;
      CommitRebuilds(s, tx);
    }
    hide Good, Lands, Effect, SharedRows, WellKeyed, CommittedLog, Project, Replay, Admitted, Named, Blocked, Next;
  }

  lemma CommitGood(s: Shared, tx: nat)
    requires Good(s) && Legal(s, Step.Commit(tx))
    ensures Good(Next(s, Step.Commit(tx)))
  {
    hide Next, Lands, Effect, Project, CommittedLog, WellKeyed, Exclusive, Journaled, Apart, Protected, Landed;
    hide Linking, SharedRows;
    var r := s.running[tx];
    CommitLeaves(s, tx);
    if r.stage == Recorded {
      CommitRebuilds(s, tx);
      EffectSameDirectory(s.tables, r.actor, r.call);
      CommitLanded(s, tx);
      CommitRest(s, tx, Effect(s.tables, r.actor, r.call));
    } else {
      NoChangeGood(s, tx);
      CommitRest(s, tx, s.tables);
    }
  }

  lemma ElsewhereGood(s: Shared, directory: Directory)
    requires Good(s) && Legal(s, Step.Elsewhere(directory))
    ensures Good(Next(s, Step.Elsewhere(directory)))
  {
    ElsewhereLinking(s, directory);
    hide Linking;
    var t := s.tables.(directory := directory);
    forall tx | tx in s.running
      ensures InPlace(t, s.running[tx])
    {
      assert InPlace(s.tables, s.running[tx]);
      if HoldsLocks(s.running[tx]) {
        SameRbacLands(s.tables, directory, s.running[tx].actor, s.running[tx].call);
      }
    }
    assert WellKeyed(t) && Project(t) == Project(s.tables);
    hide InPlace, Covered, WellKeyed, Project, CommittedLog, SubjectOf, EventRow, Disjoint;
  }

  lemma ElsewhereLinking(s: Shared, directory: Directory)
    requires Linking(s) && Legal(s, Step.Elsewhere(directory))
    ensures Linking(Next(s, Step.Elsewhere(directory)))
  {
    hide EventOf;
    forall tx | tx in s.running
      ensures Joined(directory, s.running[tx])
    {
      assert Joined(s.tables.directory, s.running[tx]);
    }
  }

  lemma SameRbacLands(t: Tables, directory: Directory, a: Actor, c: Call)
    requires Lands(t, a, c)
    ensures Lands(t.(directory := directory), a, c) && ChangeOf(t.(directory := directory), a, c) == ChangeOf(t, a, c)
  {
    assert c.CreateRole? ==> !KeyTaken(t.(directory := directory), a.tenant, c.key);
  }

  lemma StepGood(s: Shared, step: Step)
    requires Good(s) && Legal(s, step)
    ensures Good(Next(s, step))
  {
    hide Good, Next, Legal;
    match step {
      case Start(actor, call, draw) =>
        StartGood(s, actor, call, draw);
      case Arm(tx) => ArmGood(s, tx);
      case Write(tx) => WriteGood(s, tx);
      case Settle(tx) => SettleGood(s, tx);
      case Commit(tx) => CommitGood(s, tx);
      case Rollback(tx) => RollbackGood(s, tx);
      case Elsewhere(directory) => ElsewhereGood(s, directory);
    }
  }

  lemma RollbackGood(s: Shared, tx: nat)
    requires Good(s) && Legal(s, Step.Rollback(tx))
    ensures Good(Next(s, Step.Rollback(tx)))
  {
    hide Good;
    AbortGood(s, tx);
  }

  lemma {:induction false} RunGood(s: Shared, steps: seq<Step>)
    requires Good(s) && LegalRun(s, steps)
    ensures Good(Run(s, steps))
    decreases |steps|
  {
    hide Good, Next, Legal;
    if steps != [] {
      StepGood(s, steps[0]);
      RunGood(Next(s, steps[0]), steps[1..]);
    }
  }

  // ---- theorems ---------------------------------------------------------------------------------------------------

  function Idle(directory: Directory): Shared {
    Shared(Unused(directory), [], {}, map[], map[], {})
  }

  /**
   Over any interleaving of the statements of any number of service calls, committed, aborted or still open: the role
   events of committed transactions, in the order they were written and not that of the commits, rebuild exactly the
   committed roles with their status and version, role permissions and membership roles.
   */
  lemma InterleavedLogRebuildsTables(directory: Directory, steps: seq<Step>)
    requires LegalRun(Idle(directory), steps)
    ensures var end := Run(Idle(directory), steps);
      Replay(CommittedLog(end.journal, end.committed)) == Project(end.tables)
  {
    assert Project(Unused(directory)) == NOTHING;
    hide Run, LegalRun;
    RunGood(Idle(directory), steps);
  }

  /**
   A commit is one step of the sequential model: a call overtaken since its checks, of which the write still lands.
   */
  lemma CommitIsOvertaken(s: Shared, tx: nat)
    requires Good(s) && Legal(s, Step.Commit(tx))
    ensures var r := s.running[tx]; var n := Next(s, Step.Commit(tx));
      && tx in n.committed
      && n.tables == if r.stage == Released then s.tables
                     else RoleAdministration.Next(s.tables, Overtaken(r.actor, r.call, r.draw)).(log := s.tables.log)
  {
    CommitLeaves(s, tx);
    hide Good, Next, Lands, SharedRows;
    var r := s.running[tx];
    if r.stage == Recorded {
      EffectSameLog(s.tables, r.actor, r.call);
    }
    hide Effect;
  }

  lemma EffectSameLog(t: Tables, a: Actor, c: Call)
    requires Lands(t, a, c)
    ensures Effect(t, a, c).log == t.log
  {
    hide KeyTaken, PermissionId;
  }

  /** A write waits for nobody who changed other roles, other pairs and other keys. */
  lemma WritesElsewhereDoNotWait(s: Shared, tx: nat)
    requires tx in s.running && s.running[tx].stage == Armed && Named(s.running[tx].call)
    requires forall o | o in s.running && o != tx
        && (s.running[o].stage == Changed || s.running[o].stage == Recorded) ::
      var a, b := s.running[o].call, s.running[tx].call;
      a.role != b.role && (a.CreateRole? && b.CreateRole? ==> a.key != b.key)
    ensures Legal(s, Write(tx))
  {
    hide Lands, PermissionId;
  }

  /** The trigger attests every legal write that lands. */
  lemma WriteSucceeds(s: Shared, tx: nat)
    requires Good(s) && Legal(s, Write(tx)) && Lands(s.tables, s.running[tx].actor, s.running[tx].call)
    ensures var n := Next(s, Write(tx)); tx in n.running && n.running[tx].stage == Changed
  {
    WriteLeaves(s, tx);
    hide Good, Next, Legal, Lands, ChangeOf, EventRow;
  }

  lemma UnusedId(s: Shared, id: nat)
    requires forall k | 0 <= k < |s.journal| && (s.journal[k].tx in s.committed || s.journal[k].tx in s.running) ::
      s.journal[k].row.id != id
    ensures !IdInUse(s, id)
  {
  }

  /** The guard accepts the event of an attested change under an unused id; the cancel of a no-op always succeeds. */
  lemma SettleSucceeds(s: Shared, tx: nat)
    requires Good(s) && Legal(s, Settle(tx))
    requires s.running[tx].stage == Changed ==>
      forall k | 0 <= k < |s.journal| && (s.journal[k].tx in s.committed || s.journal[k].tx in s.running) ::
        s.journal[k].row.id != s.running[tx].draw.event
    ensures var n := Next(s, Settle(tx));
      tx in n.running && n.running[tx].stage == if s.running[tx].stage == Changed then Recorded else Released
  {
    SettleLeaves(s, tx);
    if s.running[tx].stage == Changed {
      UnusedId(s, s.running[tx].draw.event);
    }
    hide Good, Next, IdInUse, EventRow, SharedRows;
  }
}

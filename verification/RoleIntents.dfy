/**
 Attestation of role changes: a transaction arms an intent, a row trigger attests the real change, the audit
 insert consumes the intent, and a deferred check at commit rejects leftovers. Statements of any number of
 open transactions interleave.
 */
module RoleIntents {
  import opened Prelude

  datatype RoleEventType =
    | RoleCreated | RoleUpdated | RoleDisabled
    | PermissionAssigned | PermissionRemoved
    | MembershipAssigned | MembershipRemoved

  /** A role event as the service builds it: the actor's three identities and the subject of the change. */
  datatype RoleEvent = RoleEvent(
    kind: RoleEventType, user: nat, session: nat, membership: nat,
    role: nat, target: Option<nat>, permission: Option<string>)

  /** An audit row: the event with the identifiers the writer gave it. */
  datatype AuditRow = AuditRow(id: nat, correlation: nat, event: RoleEvent)

  datatype Intent = Intent(pid: nat, row: AuditRow, tenant: nat, attested: bool)

  /** The private intent table; its key is the transaction that armed the intent. */
  type Intents = map<nat, Intent>

  /** Who is speaking: the transaction, its backend process and its tenant setting. */
  datatype Backend = Backend(tx: nat, pid: nat, tenant: nat)

  datatype RoleStatus = Active | Inactive

  datatype RoleRow = RoleRow(id: nat, tenant: nat, key: string, name: string, status: RoleStatus, version: nat)

  datatype Grant = Grant(tenant: nat, role: nat, permission: string)

  datatype Member = Member(tenant: nat, membership: nat, role: nat)

  /** A row change on a guarded table, with the OLD and NEW tuples its trigger sees. */
  datatype RowChange =
    | RoleInsert(newRole: RoleRow) | RoleUpdate(oldRole: RoleRow, newRole: RoleRow) | RoleDelete(oldRole: RoleRow)
    | GrantInsert(newGrant: Grant) | GrantUpdate(oldGrant: Grant, newGrant: Grant) | GrantDelete(oldGrant: Grant)
    | MemberInsert(newMember: Member) | MemberUpdate(oldMember: Member, newMember: Member)
      | MemberDelete(oldMember: Member)

  // ---- the five database functions ------------------------------------------------------------------------

  predicate NeedsPermission(kind: RoleEventType) {
    kind == PermissionAssigned || kind == PermissionRemoved
  }

  predicate NeedsTarget(kind: RoleEventType) {
    kind == MembershipAssigned || kind == MembershipRemoved
  }

  predicate WellShaped(e: RoleEvent) {
    && (NeedsPermission(e.kind) <==> e.permission.Some?)
    && (NeedsTarget(e.kind) <==> e.target.Some?)
  }

  /** prepare: arm an intent; the table's key refuses a second one. `linked` is the identity join's verdict. */
  function Prepare(intents: Intents, b: Backend, row: AuditRow, linked: bool): Option<Intents> {
    if !WellShaped(row.event) || !linked || b.tx in intents then None
    else Some(intents[b.tx := Intent(b.pid, row, b.tenant, false)])
  }

  /** What the trigger reads off a change: the event it amounts to, and the row's subject. */
  datatype Reading = Reading(kind: RoleEventType, role: nat, tenant: nat, target: Option<nat>,
    permission: Option<string>)

  function Read(c: RowChange): Option<Reading> {
    match c
    case RoleInsert(n) => Some(Reading(RoleCreated, n.id, n.tenant, None, None))
    case RoleUpdate(o, n) =>
      if n.id != o.id || n.tenant != o.tenant || n.key != o.key || n.version != o.version + 1 then None
      else if o.status == Active && n.status == Inactive then Some(Reading(RoleDisabled, n.id, n.tenant, None, None))
      else if n.status == o.status then Some(Reading(RoleUpdated, n.id, n.tenant, None, None))
      else None
    case GrantInsert(n) => Some(Reading(PermissionAssigned, n.role, n.tenant, None, Some(n.permission)))
    case GrantDelete(o) => Some(Reading(PermissionRemoved, o.role, o.tenant, None, Some(o.permission)))
    case MemberInsert(n) => Some(Reading(MembershipAssigned, n.role, n.tenant, Some(n.membership), None))
    case MemberDelete(o) => Some(Reading(MembershipRemoved, o.role, o.tenant, Some(o.membership), None))
    case RoleDelete(_) => None
    case GrantUpdate(_, _) => None
    case MemberUpdate(_, _) => None
  }

  /** The rows a statement selects with WHERE transaction_id = current AND backend_pid = current. */
  predicate Mine(intents: Intents, b: Backend, t: nat) {
    t in intents && t == b.tx && intents[t].pid == b.pid
  }

  function ReadingOf(i: Intent): Reading {
    var e := i.row.event;
    Reading(e.kind, e.role, i.tenant, e.target, e.permission)
  }

  /** The row trigger: a change passes when no intent is armed, otherwise it must be the one armed, once. */
  function Attest(intents: Intents, b: Backend, c: RowChange): Option<Intents> {
    if !Mine(intents, b, b.tx) then Some(intents)
    else
      var i := intents[b.tx];
      if i.attested || Read(c) != Some(ReadingOf(i)) then None
      else Some(intents[b.tx := i.(attested := true)])
  }

  /** Cancel an unattested intent by its event id. */
  function Cancel(intents: Intents, b: Backend, event: nat): Option<Intents> {
    var doomed := set t | t in intents && Mine(intents, b, t) && intents[t].row.id == event && !intents[t].attested;
    if doomed == {} then None else Some(intents - doomed)
  }

  /** The audit insert guard: a role event must delete an attested intent equal to it in every field. */
  function Consume(intents: Intents, b: Backend, row: AuditRow): Option<Intents> {
    var doomed := set t | t in intents && Mine(intents, b, t) && intents[t].row == row
                          && intents[t].attested && intents[t].tenant == b.tenant;
    if doomed == {} then None else Some(intents - doomed)
  }

  /** The deferred constraint: nothing armed by this transaction may be left when it commits. */
  predicate MayCommit(intents: Intents, b: Backend) {
    b.tx !in intents
  }

  // ---- interleaved transactions -------------------------------------------------------------------------------

  datatype Phase = Open | Committed | Aborted

  /**
   A transaction with its history: changes made while an intent was armed, changes made with none, and role events
   written.
   */
  datatype Transaction = Transaction(
    backend: Backend, phase: Phase, armed: seq<RowChange>, unarmed: seq<RowChange>, written: seq<AuditRow>)

  datatype System = System(transactions: map<nat, Transaction>, intents: Intents)

  datatype Statement =
    | PrepareStatement(row: AuditRow, linked: bool)
    | ChangeStatement(change: RowChange)
    | CancelStatement(event: nat)
    | AppendStatement(row: AuditRow)

  datatype Step =
    | Begin(backend: Backend)
    | Execute(tx: nat, statement: Statement)
    | Commit(tx: nat)
    | Rollback(tx: nat)

  function Abort(sys: System, tx: nat): System
    requires tx in sys.transactions
  {
    System(sys.transactions[tx := sys.transactions[tx].(phase := Aborted)], sys.intents - {tx})
  }

  /** One statement of an open transaction; None is an error, which aborts it. */
  function Perform(sys: System, tx: nat, statement: Statement): Option<System>
    requires tx in sys.transactions
  {
    var t := sys.transactions[tx];
    match statement
    case PrepareStatement(row, linked) =>
      (match Prepare(sys.intents, t.backend, row, linked)
       case Some(n) => Some(sys.(intents := n))
       case None => None)
    case ChangeStatement(change) =>
      (match Attest(sys.intents, t.backend, change)
       case Some(n) =>
         var recorded := if Mine(sys.intents, t.backend, tx)
           then t.(armed := t.armed + [change]) else t.(unarmed := t.unarmed + [change]);
         Some(System(sys.transactions[tx := recorded], n))
       case None => None)
    case CancelStatement(event) =>
      (match Cancel(sys.intents, t.backend, event)
       case Some(n) => Some(sys.(intents := n))
       case None => None)
    case AppendStatement(row) =>
      (match Consume(sys.intents, t.backend, row)
       case Some(n) => Some(System(sys.transactions[tx := t.(written := t.written + [row])], n))
       case None => None)
  }

  predicate IsOpen(sys: System, tx: nat) {
    tx in sys.transactions && sys.transactions[tx].phase == Open
  }

  /** A new transaction has a new number and a process no open transaction is using; only open transactions act. */
  predicate Legal(sys: System, step: Step) {
    match step
    case Begin(b) =>
      && b.tx !in sys.transactions
      && forall t | t in sys.transactions && IsOpen(sys, t) :: sys.transactions[t].backend.pid != b.pid
    case Execute(tx, _) => IsOpen(sys, tx)
    case Commit(tx) => IsOpen(sys, tx)
    case Rollback(tx) => IsOpen(sys, tx)
  }

  function Next(sys: System, step: Step): System
    requires Legal(sys, step)
  {
    match step
    case Begin(b) => sys.(transactions := sys.transactions[b.tx := Transaction(b, Open, [], [], [])])
    case Execute(tx, statement) =>
      (match Perform(sys, tx, statement) case Some(n) => n case None => Abort(sys, tx))
    case Commit(tx) =>
      if MayCommit(sys.intents, sys.transactions[tx].backend)
      then sys.(transactions := sys.transactions[tx := sys.transactions[tx].(phase := Committed)])
      else Abort(sys, tx)
    case Rollback(tx) => Abort(sys, tx)
  }

  /** The transaction a step belongs to. */
  function Actor(step: Step): nat {
    match step
    case Begin(b) => b.tx
    case Execute(tx, _) => tx
    case Commit(tx) => tx
    case Rollback(tx) => tx
  }

  predicate LegalRun(sys: System, steps: seq<Step>)
    decreases |steps|
  {
    steps == [] || (Legal(sys, steps[0]) && LegalRun(Next(sys, steps[0]), steps[1..]))
  }

  function Run(sys: System, steps: seq<Step>): System
    requires LegalRun(sys, steps)
    decreases |steps|
  {
    if steps == [] then sys else Run(Next(sys, steps[0]), steps[1..])
  }

  const EMPTY := System(map[], map[])

  // ---- invariants ----------------------------------------------------------------------------------------------

  /** An audit row says exactly what a change did: the same event kind, subject and tenant. */
  predicate Describes(row: AuditRow, c: RowChange, tenant: nat) {
    var e := row.event;
    Read(c) == Some(Reading(e.kind, e.role, tenant, e.target, e.permission))
  }

  predicate AllDescribed(written: seq<AuditRow>, changes: seq<RowChange>, tenant: nat) {
    |written| <= |changes| && forall k | 0 <= k < |written| :: Describes(written[k], changes[k], tenant)
  }

  /**
   An open transaction has one change more than events exactly while it holds an attested intent, which describes it.
   */
  predicate InStep(sys: System, tx: nat)
    requires tx in sys.transactions
  {
    var t := sys.transactions[tx];
    && t.backend.tx == tx
    && AllDescribed(t.written, t.armed, t.backend.tenant)
    && (if tx in sys.intents then
          var i := sys.intents[tx];
          && t.phase == Open && i.pid == t.backend.pid && i.tenant == t.backend.tenant
          && |t.armed| == |t.written| + (if i.attested then 1 else 0)
          && (i.attested ==> Describes(i.row, t.armed[|t.written|], t.backend.tenant))
        else t.phase != Aborted ==> |t.armed| == |t.written|)
  }

  ghost predicate Attested(sys: System) {
    && sys.intents.Keys <= sys.transactions.Keys
    && forall tx | tx in sys.transactions :: InStep(sys, tx)
  }

  /** A step touches one transaction: every other keeps its state, its history and its intent. */
  lemma OthersUntouched(sys: System, step: Step, other: nat)
    requires Attested(sys) && Legal(sys, step)
    requires other != Actor(step)
    ensures other in sys.transactions <==> other in Next(sys, step).transactions
    ensures other in sys.transactions ==> Next(sys, step).transactions[other] == sys.transactions[other]
    ensures other in sys.intents <==> other in Next(sys, step).intents
    ensures other in sys.intents ==> Next(sys, step).intents[other] == sys.intents[other]
  {
  }

  /** One statement, accepted or not, leaves its own transaction in step with its intent. */
  lemma StatementInStep(sys: System, tx: nat, statement: Statement)
    requires IsOpen(sys, tx) && InStep(sys, tx)
    ensures InStep(Next(sys, Execute(tx, statement)), tx)
  {
  }

  lemma ActorInStep(sys: System, step: Step)
    requires Attested(sys) && Legal(sys, step)
    ensures InStep(Next(sys, step), Actor(step))
  {
    var tx := Actor(step);
    match step {
      case Begin(_) =>
      case Execute(_, statement) => StatementInStep(sys, tx, statement);
      case Commit(_) => assert InStep(sys, tx);
      case Rollback(_) => assert InStep(sys, tx);
    }
  }

  lemma StepAttests(sys: System, step: Step)
    requires Attested(sys) && Legal(sys, step)
    ensures Attested(Next(sys, step))
  {
    ActorInStep(sys, step);
    var after := Next(sys, step);
    forall tx: nat | tx != Actor(step)
      ensures tx in after.intents ==> tx in after.transactions
      ensures tx in after.transactions ==> InStep(after, tx)
    {
      OthersUntouched(sys, step, tx);
      assert tx in sys.transactions ==> InStep(sys, tx);
    }
    ActorKnown(sys, step);
    hide Next, Legal;
  }

  lemma ActorKnown(sys: System, step: Step)
    requires Legal(sys, step)
    ensures Actor(step) in Next(sys, step).transactions
  {
  }

  lemma {:induction false} RunAttests(sys: System, steps: seq<Step>)
    requires Attested(sys) && LegalRun(sys, steps)
    ensures Attested(Run(sys, steps))
    decreases |steps|
  {
    if steps != [] {
      StepAttests(sys, steps[0]);
      hide Attested, Next, Legal;
      RunAttests(Next(sys, steps[0]), steps[1..]);
    }
  }

  /**
   After any interleaving a committed transaction leaves no intent, and its role events match the changes it
   made under an armed intent one for one, in order and field by field.
   */
  lemma CommittedEventsMatchChanges(steps: seq<Step>, tx: nat)
    requires LegalRun(EMPTY, steps)
    requires tx in Run(EMPTY, steps).transactions && Run(EMPTY, steps).transactions[tx].phase == Committed
    ensures var end := Run(EMPTY, steps); var t := end.transactions[tx];
      && tx !in end.intents
      && |t.written| == |t.armed|
      && (forall k | 0 <= k < |t.written| :: Describes(t.written[k], t.armed[k], t.backend.tenant))
  {
    RunAttests(EMPTY, steps);
    assert InStep(Run(EMPTY, steps), tx);
    hide Run;
  }

  /** Every intent left in the table belongs to an open transaction, under that transaction's own process and tenant. */
  lemma IntentsBelongToOpenTransactions(steps: seq<Step>, tx: nat)
    requires LegalRun(EMPTY, steps) && tx in Run(EMPTY, steps).intents
    ensures var end := Run(EMPTY, steps);
      && IsOpen(end, tx)
      && end.intents[tx].pid == end.transactions[tx].backend.pid
      && end.intents[tx].tenant == end.transactions[tx].backend.tenant
  {
    RunAttests(EMPTY, steps);
    assert InStep(Run(EMPTY, steps), tx);
    hide Run;
  }

  /** A further guarded change under an already attested intent, or a change other than the armed one, aborts. */
  lemma OneChangePerIntent(sys: System, tx: nat, change: RowChange)
    requires Attested(sys) && IsOpen(sys, tx) && tx in sys.intents
    ensures var after := Next(sys, Execute(tx, ChangeStatement(change)));
      if !sys.intents[tx].attested && Describes(sys.intents[tx].row, change, sys.transactions[tx].backend.tenant)
      then
        && after.transactions[tx].phase == Open && after.intents[tx] == sys.intents[tx].(attested := true)
        && after.transactions[tx].armed == sys.transactions[tx].armed + [change]
      else
        after.transactions[tx].phase == Aborted && tx !in after.intents
  {
    assert InStep(sys, tx);
  }

  /** What each statement needs in order not to abort its transaction. */
  lemma StatementSucceedsIff(sys: System, tx: nat, row: AuditRow)
    requires Attested(sys) && IsOpen(sys, tx)
    ensures Perform(sys, tx, AppendStatement(row)).Some? <==>
      tx in sys.intents && sys.intents[tx].attested && sys.intents[tx].row == row
    ensures Perform(sys, tx, CancelStatement(row.id)).Some? <==>
      tx in sys.intents && !sys.intents[tx].attested && sys.intents[tx].row.id == row.id
    ensures Perform(sys, tx, PrepareStatement(row, true)).Some? <==> tx !in sys.intents && WellShaped(row.event)
    ensures Next(sys, Commit(tx)).transactions[tx].phase == Committed <==> tx !in sys.intents
  {
    assert InStep(sys, tx);
    var b := sys.transactions[tx].backend;
    assert tx in sys.intents ==> Mine(sys.intents, b, tx);
    var consumed := set t | t in sys.intents && Mine(sys.intents, b, t) && sys.intents[t].row == row
                            && sys.intents[t].attested && sys.intents[t].tenant == b.tenant;
    var cancelled := set t | t in sys.intents && Mine(sys.intents, b, t) && sys.intents[t].row.id == row.id
      && !sys.intents[t].attested;
    assert tx in sys.intents && sys.intents[tx].attested && sys.intents[tx].row == row ==> tx in consumed;
    assert tx in sys.intents && !sys.intents[tx].attested && sys.intents[tx].row.id == row.id ==> tx in cancelled;
  }
}

/**
 The session lifecycle over the session table: what each service operation does to the rows and the
 audit trail, with time in microseconds and a token's digest an injective function of the token.
 */
module Sessions {
  import opened Prelude
  import opened Ranking

  const MINUTE := 60_000_000
  const IDLE_TIMEOUT := 30 * MINUTE
  const ABSOLUTE_TIMEOUT := 480 * MINUTE
  const LAST_SEEN_INTERVAL := MINUTE
  const MAX_CONCURRENT := 5

  /** The stored digest of a token; distinct tokens have distinct digests. */
  datatype Digest = Sha256(token: nat)

  datatype Reason = ConcurrentLimit | Logout | RevokeAll | PasswordReset

  datatype Session = Session(
    id: nat, user: nat, bearer: Digest, csrf: Digest, securityVersion: nat,
    createdAt: int, authenticatedAt: int, lastSeenAt: int, idleExpiresAt: int, absoluteExpiresAt: int,
    revokedAt: Option<int>, revokedReason: Option<Reason>,
    membership: Option<nat>, membershipVersion: Option<nat>)

  predicate IsValid(r: Session, now: int, securityVersion: nat) {
    r.revokedAt == None && r.securityVersion == securityVersion && now < r.idleExpiresAt && now < r.absoluteExpiresAt
  }

  datatype EventKind = LoggedOut | SessionRevoked | AllSessionsRevoked

  datatype Event = Event(kind: EventKind, reason: Reason, user: nat, session: Option<nat>)

  /** The session table by primary key. */
  type Rows = map<nat, Session>

  datatype State = State(rows: Rows, events: seq<Event>)

  function Earliest(a: int, b: int): int {
    if a < b then a else b
  }

  // ---- the row each operation writes --------------------------------------------------------------

  function Fresh(id: nat, user: nat, bearer: nat, csrf: nat, securityVersion: nat, now: int): Session {
    Session(id, user, Sha256(bearer), Sha256(csrf), securityVersion, now, now, now,
            now + IDLE_TIMEOUT, now + ABSOLUTE_TIMEOUT, None, None, None, None)
  }

  function Revoke(r: Session, now: int, reason: Reason): Session {
    r.(revokedAt := Some(now), revokedReason := Some(reason))
  }

  predicate NeedsTouch(r: Session, now: int) {
    now - r.lastSeenAt >= LAST_SEEN_INTERVAL
  }

  function Touch(r: Session, now: int): Session {
    if NeedsTouch(r, now)
    then r.(lastSeenAt := now, idleExpiresAt := Earliest(now + IDLE_TIMEOUT, r.absoluteExpiresAt))
    else r
  }

  /** A membership selection: the membership and the version it was seen at. */
  datatype Selection = Selection(membership: nat, version: nat)

  function Rotate(r: Session, bearer: nat, csrf: nat, selection: Option<Selection>, now: int): Session {
    var t := Touch(r, now).(bearer := Sha256(bearer), csrf := Sha256(csrf), lastSeenAt := now);
    match selection
    case None => t
    case Some(s) => t.(membership := Some(s.membership), membershipVersion := Some(s.version))
  }

  // ---- lookups ------------------------------------------------------------------------------------

  ghost predicate Holds(rows: Rows, d: Digest, i: nat) {
    i in rows && rows[i].bearer == d
  }

  /** The session a bearer digest finds. */
  ghost function Find(rows: Rows, d: Digest): Option<nat> {
    if exists i :: Holds(rows, d, i) then
      var i :| Holds(rows, d, i);
      Some(i)
    else None
  }

  /** The session a bearer resolves to: found, unrevoked, current and unexpired. */
  ghost function FindValid(rows: Rows, bearer: nat, securityVersion: nat, now: int): Option<nat> {
    match Find(rows, Sha256(bearer))
    case Some(i) => if IsValid(rows[i], now, securityVersion) then Some(i) else None
    case None => None
  }

  function StampOf(r: Session): Stamp {
    Stamp(r.createdAt, r.id)
  }

  /** One user's valid sessions at one security version, by age. */
  function ValidStamps(rows: Rows, user: nat, securityVersion: nat, now: int): set<Stamp> {
    set i | i in rows && rows[i].user == user && IsValid(rows[i], now, securityVersion) :: StampOf(rows[i])
  }

  /** How many of n valid sessions an issue must revoke to leave room for one more. */
  function Excess(n: nat): nat {
    if n >= MAX_CONCURRENT then n - (MAX_CONCURRENT - 1) else 0
  }

  function Evicted(rows: Rows, user: nat, securityVersion: nat, now: int): set<Stamp> {
    var valid := ValidStamps(rows, user, securityVersion, now);
    Oldest(valid, Excess(|valid|))
  }

  function EvictionEvents(user: nat, order: seq<Stamp>): seq<Event> {
    if order == [] then []
    else
      var last := order[|order| - 1];
      EvictionEvents(user, order[..|order| - 1]) + [Event(SessionRevoked, ConcurrentLimit, user, Some(last.id))]
  }

  // ---- operations ---------------------------------------------------------------------------------

  /** A service call with the values it draws: its reading of the clock, new identifiers and new tokens. */
  datatype Op =
    | Issue(user: nat, securityVersion: nat, id: nat, bearer: nat, csrf: nat, now: int)
    | Resolve(bearer: nat, securityVersion: nat, now: int)
    | RotateTo(bearer: nat, securityVersion: nat, selection: Option<Selection>, newBearer: nat, newCsrf: nat, now: int)
    | RevokeOne(bearer: nat, kind: EventKind, now: int)
    | RevokeEvery(user: nat, now: int)
    | WriteCsrf(bearer: nat, securityVersion: nat, csrf: nat, now: int)

  function Evict(rows: Rows, evicted: set<Stamp>, now: int): Rows {
    map i | i in rows :: if StampOf(rows[i]) in evicted then Revoke(rows[i], now, ConcurrentLimit) else rows[i]
  }

  function AfterIssue(rows: Rows, op: Op): Rows
    requires op.Issue?
  {
    Evict(rows, Evicted(rows, op.user, op.securityVersion, op.now), op.now)
    [op.id := Fresh(op.id, op.user, op.bearer, op.csrf, op.securityVersion, op.now)]
  }

  predicate Unrevoked(rows: Rows, user: nat, i: nat) {
    i in rows && rows[i].user == user && rows[i].revokedAt == None
  }

  function AfterRevokeEvery(rows: Rows, user: nat, now: int, reason: Reason): Rows {
    map i | i in rows :: if Unrevoked(rows, user, i) then Revoke(rows[i], now, reason) else rows[i]
  }

  /** The row a single-session operation writes back, if it gets that far. */
  ghost function Replacement(rows: Rows, op: Op): Option<Session>
    requires !op.Issue? && !op.RevokeEvery?
  {
    match if op.RevokeOne? then Find(rows, Sha256(op.bearer))
      else FindValid(rows, op.bearer, op.securityVersion, op.now)
    case None => None
    case Some(i) =>
      var r := rows[i];
      match op
      case Resolve(_, _, now) => Some(Touch(r, now))
      case RotateTo(_, _, selection, newBearer, newCsrf, now) => Some(Rotate(r, newBearer, newCsrf, selection, now))
      case RevokeOne(_, _, now) => if r.revokedAt == None then Some(Revoke(r, now, Logout)) else None
      case WriteCsrf(_, _, csrf, _) => Some(r.(csrf := Sha256(csrf)))
  }

  ghost function RowsAfter(rows: Rows, op: Op): Rows {
    match op
    case Issue(_, _, _, _, _, _) => AfterIssue(rows, op)
    case RevokeEvery(user, now) => AfterRevokeEvery(rows, user, now, RevokeAll)
    case _ =>
      match Replacement(rows, op)
      case None => rows
      case Some(r) => rows[r.id := r]
  }

  ghost function EventsOf(rows: Rows, op: Op): seq<Event> {
    match op
    case Issue(user, securityVersion, _, _, _, now) =>
      EvictionEvents(user, Ordered(Evicted(rows, user, securityVersion, now)))
    case RevokeEvery(user, _) =>
      if exists i :: Unrevoked(rows, user, i) then [Event(AllSessionsRevoked, RevokeAll, user, None)] else []
    case RevokeOne(_, kind, _) =>
      (match Replacement(rows, op)
       case None => []
       case Some(r) => [Event(kind, Logout, r.user, Some(r.id))])
    case _ => []
  }

  ghost function Apply(s: State, op: Op): State {
    State(RowsAfter(s.rows, op), s.events + EventsOf(s.rows, op))
  }

  // ---- runs -----------------------------------------------------------------------------------------

  /**
   A history: the database, the latest clock reading, every bearer digest ever stored, and resolve's writes per
   session.
   */
  datatype World = World(state: State, clock: int, used: set<Digest>, touches: map<nat, nat>)

  function NewBearer(op: Op): Option<nat> {
    match op
    case Issue(_, _, _, bearer, _, _) => Some(bearer)
    case RotateTo(_, _, _, newBearer, _, _) => Some(newBearer)
    case _ => None
  }

  /**
   The clock does not run backwards, new identifiers and bearers are new, and a single revocation is one of its two
   kinds.
   */
  ghost predicate Legal(w: World, op: Op) {
    && w.clock <= op.now
    && (op.Issue? ==> op.id !in w.state.rows)
    && (NewBearer(op).Some? ==> Sha256(NewBearer(op).value) !in w.used)
    && (op.RevokeOne? ==> op.kind != AllSessionsRevoked)
  }

  /** The session whose row `resolve` itself writes during an operation, if any. */
  ghost function TouchedBy(rows: Rows, op: Op): Option<nat> {
    if op.Resolve? || op.RotateTo? then
      match FindValid(rows, op.bearer, op.securityVersion, op.now)
      case Some(i) => if NeedsTouch(rows[i], op.now) then Some(i) else None
      case None => None
    else None
  }

  function Touches(w: World, i: nat): nat {
    if i in w.touches then w.touches[i] else 0
  }

  ghost function Step(w: World, op: Op): World {
    World(
      Apply(w.state, op), op.now,
      if NewBearer(op).Some? then w.used + {Sha256(NewBearer(op).value)} else w.used,
      match TouchedBy(w.state.rows, op)
      case Some(i) => w.touches[i := Touches(w, i) + 1]
      case None => w.touches)
  }

  ghost predicate LegalRun(w: World, ops: seq<Op>)
    decreases |ops|
  {
    ops == [] || (Legal(w, ops[0]) && LegalRun(Step(w, ops[0]), ops[1..]))
  }

  ghost function Run(w: World, ops: seq<Op>): World
    decreases |ops|
  {
    if ops == [] then w else Run(Step(w, ops[0]), ops[1..])
  }

  const START := World(State(map[], []), 0, {}, map[])
}

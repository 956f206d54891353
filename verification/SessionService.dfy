/** The session service as it runs: stores mutated in place, loops over active sessions, either backend. */
module SessionService {
  import opened Prelude
  import opened Ranking
  import opened Sessions
  import opened SessionInvariants
  import opened SessionHistory
  import opened SessionStores

  // ---- sorting by age -----------------------------------------------------------------------------------

  function Insert(r: Session, sorted: seq<Session>): seq<Session> {
    if sorted == [] then [r]
    else if Before(StampOf(r), StampOf(sorted[0])) then [r] + sorted
    else [sorted[0]] + Insert(r, sorted[1..])
  }

  /** Python's sort with the key (created_at, id). */
  function SortByAge(rs: seq<Session>): seq<Session> {
    if rs == [] then [] else Insert(rs[0], SortByAge(rs[1..]))
  }

  function Stamps(rs: seq<Session>): seq<Stamp> {
    seq(|rs|, i requires 0 <= i < |rs| => StampOf(rs[i]))
  }

  lemma {:induction false} InsertKeeps(r: Session, sorted: seq<Session>)
    requires Ascending(Stamps(sorted)) && StampOf(r) !in Stamps(sorted)
    ensures Ascending(Stamps(Insert(r, sorted)))
    ensures |Insert(r, sorted)| == |sorted| + 1
    ensures forall x :: x in Insert(r, sorted) <==> x == r || x in sorted
  {
    if sorted != [] {
      var s := Stamps(sorted);
      assert s[0] == StampOf(sorted[0]);
      if Before(StampOf(r), StampOf(sorted[0])) {
        assert Stamps([r] + sorted) == [StampOf(r)] + s;
      } else {
        assert Stamps(sorted[1..]) == s[1..];
        InsertKeeps(r, sorted[1..]);
        var rest := Insert(r, sorted[1..]);
        assert Stamps([sorted[0]] + rest) == [s[0]] + Stamps(rest);
        forall i | 0 <= i < |rest|
          ensures Before(s[0], StampOf(rest[i]))
        {
          assert rest[i] in rest;
          if rest[i] != r {
            var j :| 0 <= j < |sorted[1..]| && sorted[1..][j] == rest[i];
            assert s[j + 1] == StampOf(rest[i]);
          } else {
            assert s[0] in s;
          }
        }
      }
    }
  }

  ghost predicate DistinctStamps(rs: seq<Session>) {
    forall i, j | 0 <= i < j < |rs| :: StampOf(rs[i]) != StampOf(rs[j])
  }

  /** Sorting orders the records by age and neither loses nor invents one. */
  lemma {:induction false} SortSorts(rs: seq<Session>)
    requires DistinctStamps(rs)
    ensures Ascending(Stamps(SortByAge(rs)))
    ensures |SortByAge(rs)| == |rs|
    ensures forall x :: x in SortByAge(rs) <==> x in rs
  {
    if rs != [] {
      SortSorts(rs[1..]);
      var sorted := SortByAge(rs[1..]);
      forall k | 0 <= k < |sorted|
        ensures StampOf(sorted[k]) != StampOf(rs[0])
      {
        assert sorted[k] in sorted;
        var j :| 0 <= j < |rs[1..]| && rs[1..][j] == sorted[k];
        assert rs[j + 1] == sorted[k];
      }
      InsertKeeps(rs[0], sorted);
      assert forall x :: x in rs <==> x == rs[0] || x in rs[1..];
    }
  }

  // ---- the stores ------------------------------------------------------------------------------------------

  /** A list of exactly one user's unrevoked sessions, each once. */
  ghost predicate ListsActive(rs: seq<Session>, rows: Rows, user: nat) {
    && (forall k | 0 <= k < |rs| :: Unrevoked(rows, user, rs[k].id) && rows[rs[k].id] == rs[k])
    && (forall i | Unrevoked(rows, user, i) :: rows[i] in rs)
    && (forall j, k | 0 <= j < k < |rs| :: rs[j].id != rs[k].id)
  }

  class MemorySessionStore {
    var sessions: Dict
    var events: seq<Event>

    constructor ()
      ensures sessions == map[] && events == []
    {
      sessions, events := map[], [];
    }

    method WriteSecurityEvent(e: Event)
      modifies this`events
      ensures events == old(events) + [e]
    {
      events := events + [e];
    }

    method Save(r: Session)
      modifies this`sessions
      ensures sessions == old(sessions)[r.bearer := r]
    {
      sessions := sessions[r.bearer := r];
    }

    method GetByDigest(d: Digest) returns (r: Option<Session>)
      ensures r == if d in sessions then Some(sessions[d]) else None
    {
      r := if d in sessions then Some(sessions[d]) else None;
    }

    method ActiveForUser(user: nat, ghost rows: Rows) returns (rs: seq<Session>)
      requires Shows(sessions, rows)
      ensures ListsActive(rs, rows, user)
    {
      rs := [];
      var keys := sessions.Keys;
      while keys != {}
        invariant keys <= sessions.Keys
        invariant forall k | 0 <= k < |rs| :: rs[k].bearer in sessions.Keys - keys && sessions[rs[k].bearer] == rs[k]
        invariant forall k | 0 <= k < |rs| :: rs[k].user == user && rs[k].revokedAt == None
        invariant forall d | d in sessions && d !in keys && sessions[d].user == user && sessions[d].revokedAt == None ::
          sessions[d] in rs
        invariant forall j, k | 0 <= j < k < |rs| :: rs[j].bearer != rs[k].bearer
        decreases keys
      {
        var d :| d in keys;
        keys := keys - {d};
        if sessions[d].user == user && sessions[d].revokedAt == None {
          rs := rs + [sessions[d]];
        }
      }
    }

    /** replace: delete every entry with the record's id, one at a time, then store the record. */
    method Replace(r: Session)
      modifies this`sessions
      ensures sessions == DictReplace(old(sessions), r)
    {
      ghost var was := sessions;
      var keys := sessions.Keys;
      while keys != {}
        invariant keys <= was.Keys
        invariant sessions == map d | d in was && (d in keys || was[d].id != r.id) :: was[d]
        decreases keys
      {
        var d :| d in keys;
        keys := keys - {d};
        if sessions[d].id == r.id {
          sessions := sessions - {d};
        }
      }
      sessions := sessions[r.bearer := r];
    }
  }

  class PostgresSessionStore {
    var rows: Rows
    var events: seq<Event>

    /** The accounts and memberships the table's foreign keys look up. */
    var accounts: Accounts

    constructor (rows: Rows, accounts: Accounts)
      ensures this.rows == rows && this.accounts == accounts && events == []
    {
      this.rows, this.accounts, events := rows, accounts, [];
    }

    method WriteSecurityEvent(e: Event)
      modifies this`events
      ensures events == old(events) + [e]
    {
      events := events + [e];
    }

    method Save(r: Session) returns (ok: bool)
      modifies this`rows
      ensures ok <==> && r.id !in old(rows) && (forall j | j in old(rows) :: old(rows)[j].bearer != r.bearer)
                      && Coherent(r) && Positive(r) && r.user in accounts.users && Owned(accounts, r)
      ensures ok <==> && r.id !in old(rows) && (forall j | j in old(rows) :: old(rows)[j].bearer != r.bearer)
                      && r.idleExpiresAt <= r.absoluteExpiresAt
                      && (r.revokedAt == None <==> r.revokedReason == None)
                      && (r.membership == None <==> r.membershipVersion == None)
                      && (r.membershipVersion.Some? ==> r.membershipVersion.value > 0)
                      && r.user in accounts.users
                      && (r.membership.Some? ==>
                            && r.membership.value in accounts.memberships
                            && accounts.memberships[r.membership.value].user == r.user)
      ensures rows == if ok then old(rows)[r.id := r] else old(rows)
    {
      var inserted := SqlInsert(accounts, rows, r);
      ok := inserted.Some?;
      if ok {
        rows := inserted.value;
      }
    }

    method GetByDigest(d: Digest) returns (r: Option<Session>)
      requires DistinctBearers(rows)
      ensures r == match Find(rows, d) case Some(i) => Some(rows[i]) case None => None
    {
      if i :| i in rows && rows[i].bearer == d {
        assert Holds(rows, d, i);
        r := Some(rows[i]);
      } else {
        r := None;
      }
    }

    method ActiveForUser(user: nat) returns (rs: seq<Session>)
      requires forall i | i in rows :: rows[i].id == i
      ensures ListsActive(rs, rows, user)
      ensures Ascending(Stamps(rs))
    {
      var found: seq<Session> := [];
      var ids := rows.Keys;
      while ids != {}
        invariant ids <= rows.Keys
        invariant forall k | 0 <= k < |found| :: found[k].id in rows.Keys - ids && rows[found[k].id] == found[k]
        invariant forall k | 0 <= k < |found| :: Unrevoked(rows, user, found[k].id)
        invariant forall i | i in rows && i !in ids && Unrevoked(rows, user, i) :: rows[i] in found
        invariant forall j, k | 0 <= j < k < |found| :: found[j].id != found[k].id
        decreases ids
      {
        var i :| i in ids;
        ids := ids - {i};
        if rows[i].user == user && rows[i].revokedAt == None {
          found := found + [rows[i]];
        }
      }
      rs := SortByAge(found);
      SortSorts(found);
      SortedLists(found, rs, rows, user);
    }

    /**
     UPDATE ... WHERE id. It writes the eight columns it names and leaves the other six columns, every other row and
     the set of ids alone; a missing id is no error and changes nothing; and it fails, changing nothing, exactly
     when another row holds the digest, the resulting row breaks a CHECK, or a new selection is not a membership of
     the session's user.
     */
    method Replace(r: Session) returns (ok: bool)
      modifies this`rows
      ensures rows.Keys == old(rows).Keys
      ensures forall i | i in rows && i != r.id :: rows[i] == old(rows)[i]
      ensures r.id in rows && !ok ==> rows[r.id] == old(rows)[r.id]
      ensures r.id in rows && ok ==> var n := rows[r.id];
        && SameIdentity(old(rows)[r.id], n)
        && n.bearer == r.bearer && n.csrf == r.csrf && n.lastSeenAt == r.lastSeenAt
           && n.idleExpiresAt == r.idleExpiresAt
        && n.revokedAt == r.revokedAt && n.revokedReason == r.revokedReason
        && n.membership == r.membership && n.membershipVersion == r.membershipVersion
      ensures r.id !in rows ==> ok
      ensures r.id in rows ==>
        (ok <==> && (forall j | j in old(rows) && j != r.id :: old(rows)[j].bearer != r.bearer)
                 && r.idleExpiresAt <= old(rows)[r.id].absoluteExpiresAt
                 && (r.revokedAt == None <==> r.revokedReason == None)
                 && (r.membership == None <==> r.membershipVersion == None)
                 && (r.membershipVersion.Some? ==> r.membershipVersion.value > 0)
                 && (r.membership.Some? && r.membership != old(rows)[r.id].membership ==>
                       && r.membership.value in accounts.memberships
                       && accounts.memberships[r.membership.value].user == old(rows)[r.id].user))
    {
      ok := true;
      if r.id in rows {
        var updated := SqlUpdate(accounts, rows, r);
        ok := updated.Some?;
        if ok {
          rows := updated.value;
        }
      }
    }
  }

  /** What a transaction that fails puts back. */
  datatype Savepoint = Savepoint(rows: Rows, events: seq<Event>)

  lemma SortedLists(found: seq<Session>, sorted: seq<Session>, rows: Rows, user: nat)
    requires ListsActive(found, rows, user)
    requires Ascending(Stamps(sorted)) && forall x :: x in sorted <==> x in found
    ensures ListsActive(sorted, rows, user)
  {
    forall k | 0 <= k < |sorted|
      ensures Unrevoked(rows, user, sorted[k].id) && rows[sorted[k].id] == sorted[k]
    {
      assert sorted[k] in found;
    }
    forall j, k | 0 <= j < k < |sorted|
      ensures sorted[j].id != sorted[k].id
    {
      assert Before(Stamps(sorted)[j], Stamps(sorted)[k]);
    }
  }

  /** The store a service was given. */
  datatype Backend = Memory(memory: MemorySessionStore) | Postgres(table: PostgresSessionStore) {
    ghost function Objects(): set<object> {
      match this
      case Memory(m) => {m}
      case Postgres(t) => {t}
    }

    /** The store holds exactly these sessions and these events. */
    ghost predicate Holds(s: State)
      reads Objects()
    {
      match this
      case Memory(m) => Shows(m.sessions, s.rows) && m.events == s.events
      case Postgres(t) => t.rows == s.rows && t.events == s.events && AllPositive(t.rows)
    }

    /** What a table's foreign keys look up; a dictionary has none. */
    ghost function Directory(): Option<Accounts>
      reads Objects()
    {
      match this
      case Memory(_) => None
      case Postgres(t) => Some(t.accounts)
    }
  }

  /** A store without foreign keys takes every selection. */
  predicate Taken(d: Option<Accounts>, previous: Option<nat>, r: Session) {
    d.Some? ==> TakesSelection(d.value, previous, r)
  }

  predicate KnownTo(d: Option<Accounts>, user: nat) {
    d.Some? ==> user in d.value.users
  }

  predicate SameSelection(r: Session, n: Session) {
    n.membership == r.membership && n.membershipVersion == r.membershipVersion
  }

  /** The session a bearer finds, if it is valid at its own security version. */
  ghost function Usable(rows: Rows, bearer: nat, now: int): Option<nat> {
    match Find(rows, Sha256(bearer))
    case Some(i) => if IsValid(rows[i], now, rows[i].securityVersion) then Some(i) else None
    case None => None
  }

  class SessionService {
    const store: Backend

    /** The history this service has lived through; every operation advances it by its own step. */
    ghost var world: World

    ghost predicate Valid()
      reads this, store.Objects()
    {
      this !in store.Objects() && store.Holds(world.state) && Good(world)
    }

    constructor (store: Backend)
      requires store.Holds(START.state)
      ensures Valid() && this.store == store && world == START
    {
      this.store := store;
      world := START;
      new;
      StartGood();
    }

    /** A service over a store with a past, as one transaction of a larger system builds it. */
    constructor Over(store: Backend)
      ensures this.store == store
    {
      this.store := store;
      world := START;
    }

    // ---- the store protocol, either implementation --------------------------------------------------

    method GetByDigest(d: Digest, ghost s: State) returns (r: Option<Session>)
      requires store.Holds(s) && DistinctBearers(s.rows)
      ensures r == match Find(s.rows, d) case Some(i) => Some(s.rows[i]) case None => None
    {
      match store
      case Memory(m) =>
        LookupsAgree(m.sessions, s.rows, d);
        r := m.GetByDigest(d);
      case Postgres(t) =>
        r := t.GetByDigest(d);
    }

    method ActiveForUser(user: nat, ghost s: State) returns (rs: seq<Session>)
      requires store.Holds(s) && forall i | i in s.rows :: s.rows[i].id == i
      ensures ListsActive(rs, s.rows, user)
    {
      match store
      case Memory(m) => rs := m.ActiveForUser(user, s.rows);
      case Postgres(t) => rs := t.ActiveForUser(user);
    }

    /** Over the table a replacement raises when its selection is refused; keeping the selection never is. */
    method Replace(r: Session, ghost s: State) returns (ok: bool)
      requires store.Holds(s) && r.id in s.rows && SameIdentity(s.rows[r.id], r)
      requires Coherent(r) && !BearerTaken(s.rows, r.bearer, r.id)
      modifies store.Objects()
      ensures ok <==> Taken(store.Directory(), s.rows[r.id].membership, r)
      ensures SameSelection(s.rows[r.id], r) ==> ok
      ensures store.Holds(if ok then s.(rows := s.rows[r.id := r]) else s)
      ensures store.Directory() == old(store.Directory())
    {
      match store
      case Memory(m) =>
        ReplacementShows(m.sessions, s.rows, r);
        m.Replace(r);
        ok := true;
      case Postgres(t) =>
        UpdateIsReplaceIff(t.accounts, s.rows, r);
        ok := t.Replace(r);
    }

    /** Over the table an insertion raises when its user or its selection is refused. */
    method Save(r: Session, ghost s: State) returns (ok: bool)
      requires store.Holds(s) && r.id !in s.rows && Coherent(r) && r.membership == None
        && !BearerTaken(s.rows, r.bearer, r.id)
      modifies store.Objects()
      ensures ok <==> KnownTo(store.Directory(), r.user)
      ensures store.Holds(if ok then s.(rows := s.rows[r.id := r]) else s)
      ensures store.Directory() == old(store.Directory())
    {
      match store
      case Memory(m) =>
        InsertionShows(m.sessions, s.rows, r);
        m.Save(r);
        ok := true;
      case Postgres(t) =>
        ok := t.Save(r);
    }

    method WriteSecurityEvent(e: Event, ghost s: State)
      requires store.Holds(s)
      modifies store.Objects()
      ensures store.Holds(s.(events := s.events + [e]))
      ensures store.Directory() == old(store.Directory())
    {
      match store
      case Memory(m) => m.WriteSecurityEvent(e);
      case Postgres(t) => t.WriteSecurityEvent(e);
    }

    /** The start of the caller's transaction, and its end when a statement raised; a dictionary never raises. */
    method Begin(ghost s: State) returns (p: Savepoint)
      requires store.Holds(s)
      ensures store.Postgres? ==> p == Savepoint(s.rows, s.events)
    {
      match store
      case Memory(_) => p := Savepoint(map[], []);
      case Postgres(t) => p := Savepoint(t.rows, t.events);
    }

    method Rollback(p: Savepoint, ghost s: State)
      requires store.Postgres? && p == Savepoint(s.rows, s.events) && AllPositive(s.rows)
      modifies store.Objects()
      ensures store.Holds(s) && store.Directory() == old(store.Directory())
    {
      var t := store.table;
      t.rows, t.events := p.rows, p.events;
    }

    // ---- operations ------------------------------------------------------------------------------------

    /** The user's valid sessions at one version, oldest first. */
    method ValidByAge(user: nat, securityVersion: nat, now: int, ghost s: State) returns (sorted: seq<Session>)
      requires store.Holds(s) && forall i | i in s.rows :: s.rows[i].id == i
      ensures Stamps(sorted) == Ordered(ValidStamps(s.rows, user, securityVersion, now))
      ensures Ascending(Stamps(sorted))
      ensures forall r | r in sorted :: Unrevoked(s.rows, user, r.id) && s.rows[r.id] == r
    {
      var active := ActiveForUser(user, s);
      var valid: seq<Session> := [];
      for k := 0 to |active|
        invariant forall j | 0 <= j < |valid| :: valid[j] in active[..k] && IsValid(valid[j], now, securityVersion)
        invariant forall j | 0 <= j < k && IsValid(active[j], now, securityVersion) :: active[j] in valid
        invariant forall i, j | 0 <= i < j < |valid| :: valid[i].id != valid[j].id
      {
        if IsValid(active[k], now, securityVersion) {
          valid := valid + [active[k]];
        }
      }
      sorted := SortByAge(valid);
      SortedIsOrdered(s.rows, active, valid, user, securityVersion, now);
    }

    /** The loop that revokes from the front of the queue until there is room for one more. */
    method MakeRoom(queue: seq<Session>, user: nat, now: int, ghost s: State, ghost clock: int) returns (ghost t: State)
      requires store.Holds(s) && RowsOk(s.rows, clock) && DistinctBearers(s.rows) && Ascending(Stamps(queue))
      requires forall r | r in queue :: Unrevoked(s.rows, user, r.id) && s.rows[r.id] == r
      modifies store.Objects()
      ensures store.Holds(t) && store.Directory() == old(store.Directory())
      ensures var gone := Stamps(queue)[..Excess(|queue|)];
        t == State(Evict(s.rows, Elements(gone), now), s.events + EvictionEvents(user, gone))
    {
      var active := queue;
      ghost var q := Stamps(queue);
      ghost var k := 0;
      t := s;
      EvictNone(s.rows, now, user, q);
      hide Evict, EvictionEvents, Ascending, RowsOk, DistinctBearers, Elements;
      while |active| >= MAX_CONCURRENT
        invariant 0 <= k <= |queue| && active == queue[k..] && k <= Excess(|queue|)
        invariant t == State(Evict(s.rows, Elements(q[..k]), now), s.events + EvictionEvents(user, q[..k]))
        invariant store.Holds(t) && store.Directory() == old(store.Directory())
      {
        var oldest := active[0];
        EvictNext(s.rows, clock, q, k, oldest, user, now);
        active := active[1..];
        var revoked := Revoke(oldest, now, ConcurrentLimit);
        var ok := Replace(revoked, t);
        t := t.(rows := t.rows[oldest.id := revoked]);
        var e := Event(SessionRevoked, ConcurrentLimit, oldest.user, Some(oldest.id));
        WriteSecurityEvent(e, t);
        t := t.(events := t.events + [e]);
        k := k + 1;
      }
    }

    /** The statements of an issue: revoke from the front until there is room, then insert; an unknown user raises. */
    method IssueRows(user: nat, securityVersion: nat, id: nat, bearer: nat, csrf: nat, now: int, ghost s: State,
        ghost clock: int)
      returns (r: Session, refused: bool)
      requires store.Holds(s) && RowsOk(s.rows, clock) && DistinctBearers(s.rows) && clock <= now
      requires id !in s.rows && forall i | i in s.rows :: s.rows[i].bearer != Sha256(bearer)
      modifies store.Objects()
      ensures r == Fresh(id, user, bearer, csrf, securityVersion, now)
      ensures refused <==> !KnownTo(old(store.Directory()), user)
      ensures store.Directory() == old(store.Directory())
      ensures store.Holds(if refused then s else Apply(s, Op.Issue(user, securityVersion, id, bearer, csrf, now)))
    {
      ghost var op := Op.Issue(user, securityVersion, id, bearer, csrf, now);
      assert forall i | i in s.rows :: s.rows[i].id == i;
      var begun := Begin(s);
      var active := ValidByAge(user, securityVersion, now, s);
      ghost var gone := Stamps(active)[..Excess(|active|)];
      ghost var t := MakeRoom(active, user, now, s, clock);
      EvictDone(s.rows, op, Stamps(active), Excess(|active|));
      NewBearerFree(s.rows, op, Elements(gone), now);
      hide Evict, Ordered, Evicted, ValidStamps, EvictionEvents, RowsOk, DistinctBearers, Elements;
      r := Fresh(id, user, bearer, csrf, securityVersion, now);
      var ok := Save(r, t);
      refused := !ok;
      if refused {
        Rollback(begun, s);
      }
    }

    method Issue(user: nat, securityVersion: nat, id: nat, bearer: nat, csrf: nat, now: int)
        returns (r: Session, refused: bool)
      requires Valid() && Legal(world, Op.Issue(user, securityVersion, id, bearer, csrf, now))
      modifies this`world, store.Objects()
      ensures Valid() && store.Directory() == old(store.Directory())
      ensures refused <==> !KnownTo(store.Directory(), user)
      ensures world == if refused then old(world)
        else Step(old(world), Op.Issue(user, securityVersion, id, bearer, csrf, now))
      ensures r == Fresh(id, user, bearer, csrf, securityVersion, now)
    {
      ghost var op := Op.Issue(user, securityVersion, id, bearer, csrf, now);
      ghost var w := world;
      StepGood(w, op);
      LegalIssue(w, op);
      hide Good, Apply;
      r, refused := IssueRows(user, securityVersion, id, bearer, csrf, now, w.state, w.clock);
      if !refused {
        world := Step(w, op);
      }
    }

    /** The part of `resolve` that rotation shares: look up, check, and touch a row not seen for a minute. */
    method ResolveRow(bearer: nat, securityVersion: nat, now: int, ghost w: World) returns (r: Option<Session>)
      requires store.Holds(w.state) && Good(w) && w.clock <= now
      modifies store.Objects()
      ensures store.Directory() == old(store.Directory())
      ensures store.Holds(w.state.(rows := RowsAfter(w.state.rows, Op.Resolve(bearer, securityVersion, now))))
      ensures r == match FindValid(w.state.rows, bearer, securityVersion, now)
        case Some(i) => Some(Touch(w.state.rows[i], now))
        case None => None
    {
      ghost var s := w.state;
      ghost var op := Op.Resolve(bearer, securityVersion, now);
      r := GetByDigest(Sha256(bearer), s);
      if r == None || !IsValid(r.value, now, securityVersion) {
        return None;
      }
      ReplacementEvolves(s.rows, w.clock, op);
      assert Replacement(s.rows, op) == Some(Touch(r.value, now));
      if NeedsTouch(r.value, now) {
        r := Some(Touch(r.value, now));
        var ok := Replace(r.value, s);
      } else {
        assert s.rows[r.value.id := r.value] == s.rows;
      }
    }

    method Resolve(bearer: nat, securityVersion: nat, now: int) returns (r: Option<Session>)
      requires Valid() && Legal(world, Op.Resolve(bearer, securityVersion, now))
      modifies this`world, store.Objects()
      ensures Valid() && world == Step(old(world), Op.Resolve(bearer, securityVersion, now))
      ensures r == match FindValid(old(world).state.rows, bearer, securityVersion, now)
        case Some(i) => Some(world.state.rows[i])
        case None => None
    {
      ghost var op, w := Op.Resolve(bearer, securityVersion, now), world;
      StepGood(w, op);
      r := ResolveRow(bearer, securityVersion, now, w);
      assert EventsOf(w.state.rows, op) == [];
      assert Step(w, op).state == w.state.(rows := RowsAfter(w.state.rows, op));
      if r.Some? {
        ReplacementEvolves(w.state.rows, w.clock, op);
      }
      hide Good, FindValid;
      world := Step(w, op);
    }

    /**
     The statements of a rotation: resolve, then replace; a refused selection raises and the transaction puts
     everything back.
     */
    method RotateRows(
      bearer: nat, securityVersion: nat, selection: Option<Selection>, newBearer: nat, newCsrf: nat, now: int,
      ghost w: World)
      returns (r: Option<Session>, refused: bool)
      requires store.Holds(w.state) && Good(w)
      requires Legal(w, Op.RotateTo(bearer, securityVersion, selection, newBearer, newCsrf, now))
      modifies store.Objects()
      ensures store.Directory() == old(store.Directory())
      ensures match FindValid(w.state.rows, bearer, securityVersion, now)
        case None => !refused && r == None
        case Some(i) =>
          var rotated := Rotate(w.state.rows[i], newBearer, newCsrf, selection, now);
          && (refused <==> !Taken(store.Directory(), w.state.rows[i].membership, rotated))
          && r == if refused then None else Some(rotated)
      ensures var op := Op.RotateTo(bearer, securityVersion, selection, newBearer, newCsrf, now);
        store.Holds(if refused then w.state else w.state.(rows := RowsAfter(w.state.rows, op)))
    {
      ghost var op := Op.RotateTo(bearer, securityVersion, selection, newBearer, newCsrf, now);
      hide Shows, AllPositive, TakesSelection, RowsAfter, SameIdentity;
      RotateStep(w, op);
      var begun := Begin(w.state);
      var resolved := ResolveRow(bearer, securityVersion, now, w);
      if resolved == None {
        return None, false;
      }
      RotateMeetsSpec(w, op);
      hide Good, FindValid, Step;
      var rotated := resolved.value.(bearer := Sha256(newBearer), csrf := Sha256(newCsrf), lastSeenAt := now);
      if selection.Some? {
        rotated := rotated.(membership := Some(selection.value.membership),
          membershipVersion := Some(selection.value.version));
      }
      ghost var s := w.state.(rows := RowsAfter(w.state.rows, Op.Resolve(bearer, securityVersion, now)));
      var ok := Replace(rotated, s);
      if ok {
        r, refused := Some(rotated), false;
      } else {
        Rollback(begun, w.state);
        r, refused := None, true;
      }
    }

    /**
     rotate, and with a selection rotate_to_membership. Over the table it raises, and its transaction puts everything
     back, exactly when the bearer is good and the selection is not a membership of its user at a positive version.
     */
    method RotateTo(bearer: nat, securityVersion: nat, selection: Option<Selection>, newBearer: nat,
        newCsrf: nat, now: int)
      returns (r: Option<Session>, refused: bool)
      requires Valid() && Legal(world, Op.RotateTo(bearer, securityVersion, selection, newBearer, newCsrf, now))
      modifies this`world, store.Objects()
      ensures Valid() && store.Directory() == old(store.Directory())
      ensures var rows := old(world).state.rows;
        match FindValid(rows, bearer, securityVersion, now)
        case None => !refused && r == None
        case Some(i) =>
          var rotated := Rotate(rows[i], newBearer, newCsrf, selection, now);
          && (refused <==> !Taken(store.Directory(), rows[i].membership, rotated))
          && r == if refused then None else Some(rotated)
      ensures world ==
              if refused then old(world)
              else Step(old(world), Op.RotateTo(bearer, securityVersion, selection, newBearer, newCsrf, now))
    {
      ghost var op, w := Op.RotateTo(bearer, securityVersion, selection, newBearer, newCsrf, now), world;
      hide Good, FindValid, RowsAfter, Step, Legal, Taken, Rotate, Shows, AllPositive;
      StepGood(w, op);
      RotateStep(w, op);
      r, refused := RotateRows(bearer, securityVersion, selection, newBearer, newCsrf, now, w);
      if !refused {
        world := Step(w, op);
      }
    }

    /**
     The tenant switch: it rotates to the version an authority answers for the session's own user and membership, if
     the accounts behind it are active, so the table never refuses it.
     */
    method Switch(bearer: nat, membership: nat, authority: Accounts, active: bool, newBearer: nat,
        newCsrf: nat, now: int)
      returns (r: Option<Session>)
      requires Valid() && world.clock <= now && Sha256(newBearer) !in world.used
      requires store.Directory().Some? ==> store.Directory().value == authority
      requires forall m | m in authority.memberships :: authority.memberships[m].version > 0
      modifies this`world, store.Objects()
      ensures Valid()
      ensures var rows := old(world).state.rows; var found := Usable(rows, bearer, now);
        if active && found.Some? && ResolveActive(authority, rows[found.value].user, membership).Some? then
          var selection := ResolveActive(authority, rows[found.value].user, membership);
          var version := rows[found.value].securityVersion;
          && world == Step(old(world), Op.RotateTo(bearer, version, selection, newBearer, newCsrf, now))
          && r == Some(Rotate(rows[found.value], newBearer, newCsrf, selection, now))
        else world == old(world) && r == None
    {
      ghost var rows := world.state.rows;
      GoodRows(world);
      var current := GetByDigest(Sha256(bearer), world.state);
      if current == None || !IsValid(current.value, now, current.value.securityVersion) {
        return None;
      }
      var selection := ResolveActive(authority, current.value.user, membership);
      if !active || selection == None {
        return None;
      }
      SwitchIsTaken(authority, current.value, membership, newBearer, newCsrf, now);
      hide Good, TakesSelection, ResolveActive, Rotate;
      var refused;
      r, refused := RotateTo(bearer, current.value.securityVersion, selection, newBearer, newCsrf, now);
    }

    /** logout and revoke_current, told apart by the event they write. */
    method RevokeOne(bearer: nat, kind: EventKind, now: int) returns (done: bool)
      requires Valid() && Legal(world, Op.RevokeOne(bearer, kind, now))
      modifies this`world, store.Objects()
      ensures Valid() && world == Step(old(world), Op.RevokeOne(bearer, kind, now))
      ensures done <==> Replacement(old(world).state.rows, Op.RevokeOne(bearer, kind, now)).Some?
    {
      ghost var op, w := Op.RevokeOne(bearer, kind, now), world;
      ghost var s := w.state;
      StepGood(w, op);
      ReplacingStep(w, op);
      hide Step, Shows, AllPositive;
      var r := GetByDigest(Sha256(bearer), s);
      if r == None || r.value.revokedAt != None {
        world := Step(w, op);
        return false;
      }
      ReplacementEvolves(s.rows, w.clock, op);
      var revoked := Revoke(r.value, now, Logout);
      assert Replacement(s.rows, op) == Some(revoked);
      hide Good, Replacement;
      var ok := Replace(revoked, s);
      s := s.(rows := s.rows[revoked.id := revoked]);
      WriteSecurityEvent(Event(kind, Logout, r.value.user, Some(r.value.id)), s);
      world := Step(w, op);
      done := true;
    }

    /** The loop that revokes each listed session, in whatever order the store lists them. */
    method RevokeList(active: seq<Session>, user: nat, now: int, ghost s: State, ghost clock: int)
      returns (count: nat, ghost t: State)
      requires store.Holds(s) && RowsOk(s.rows, clock) && DistinctBearers(s.rows) && ListsActive(active, s.rows, user)
      modifies store.Objects()
      ensures store.Holds(t) && t == s.(rows := AfterRevokeEvery(s.rows, user, now, RevokeAll))
      ensures count == |active|
      ensures count > 0 <==> exists i :: Unrevoked(s.rows, user, i)
      ensures count == |set i | i in s.rows && Unrevoked(s.rows, user, i)|
    {
      count := 0;
      t := s;
      RevokedNone(s.rows, active, now);
      RevokedAll(s.rows, active, user, now);
      hide RevokeFirst, AfterRevokeEvery, Unrevoked;
      for k := 0 to |active|
        invariant count == k && store.Holds(t)
        invariant t == s.(rows := RevokeFirst(s.rows, active, k, now))
      {
        RevokeNext(s.rows, clock, active, k, user, now);
        var ok := Replace(Revoke(active[k], now, RevokeAll), t);
        t := t.(rows := t.rows[active[k].id := Revoke(active[k], now, RevokeAll)]);
        count := count + 1;
      }
    }

    /** revoke_all */
    method RevokeEvery(user: nat, now: int) returns (count: nat)
      requires Valid() && Legal(world, Op.RevokeEvery(user, now))
      modifies this`world, store.Objects()
      ensures Valid() && world == Step(old(world), Op.RevokeEvery(user, now))
      ensures count == |set i | i in old(world).state.rows && Unrevoked(old(world).state.rows, user, i)|
    {
      ghost var op, w := Op.RevokeEvery(user, now), world;
      StepGood(w, op);
      GoodRows(w);
      RevokeEveryStep(w, user, now);
      hide Good, AfterRevokeEvery, Step, Unrevoked, RowsOk, DistinctBearers;
      var active := ActiveForUser(user, w.state);
      ghost var s;
      count, s := RevokeList(active, user, now, w.state, w.clock);
      hide ListsActive;
      if count > 0 {
        WriteSecurityEvent(Event(AllSessionsRevoked, RevokeAll, user, None), s);
      }
      world := Step(w, op);
    }

    /** The write-back of a refresh-stable CSRF digest after a login, and by CSRF bootstrap. */
    method WriteCsrf(bearer: nat, securityVersion: nat, csrf: nat, now: int) returns (r: Option<Session>)
      requires Valid() && Legal(world, Op.WriteCsrf(bearer, securityVersion, csrf, now))
      modifies this`world, store.Objects()
      ensures Valid() && world == Step(old(world), Op.WriteCsrf(bearer, securityVersion, csrf, now))
      ensures r == Replacement(old(world).state.rows, Op.WriteCsrf(bearer, securityVersion, csrf, now))
    {
      ghost var op, w := Op.WriteCsrf(bearer, securityVersion, csrf, now), world;
      ghost var s := w.state;
      StepGood(w, op);
      ReplacingStep(w, op);
      hide Step, Shows, AllPositive;
      var current := GetByDigest(Sha256(bearer), s);
      if current == None || !IsValid(current.value, now, securityVersion) {
        world := Step(w, op);
        return None;
      }
      ReplacementEvolves(s.rows, w.clock, op);
      r := Some(current.value.(csrf := Sha256(csrf)));
      assert Replacement(s.rows, op) == r;
      hide Good, Replacement;
      var ok := Replace(r.value, s);
      world := Step(w, op);
    }
  }

  /** The session a switch starts from: live under the bearer, at whatever version it carries. */
  lemma UsableIff(rows: Rows, bearer: nat, now: int)
    requires DistinctBearers(rows)
    ensures forall i | i in rows && rows[i].bearer == Sha256(bearer) ::
      Usable(rows, bearer, now) ==
        if rows[i].revokedAt == None && now < rows[i].idleExpiresAt && now < rows[i].absoluteExpiresAt
        then Some(i) else None
    ensures (forall i | i in rows :: rows[i].bearer != Sha256(bearer)) ==> Usable(rows, bearer, now) == None
  {
    forall i | i in rows && rows[i].bearer == Sha256(bearer)
      ensures Find(rows, Sha256(bearer)) == Some(i)
    {
      assert Holds(rows, Sha256(bearer), i);
    }
  }

  /**
   Two services over the two stores that were asked the same things hold the same records and events: each
   dictionary key is its record's digest, each table key its id, and a digest finds the same session in both.
   */
  lemma BackendsInStep(a: SessionService, b: SessionService, d: Digest)
    requires a.Valid() && b.Valid() && a.world == b.world
    requires a.store.Memory? && b.store.Postgres?
    ensures var dict, rows := a.store.memory.sessions, b.store.table.rows;
      && Shows(dict, rows) && a.store.memory.events == b.store.table.events
      && (if d in dict then Find(rows, d) == Some(dict[d].id) && rows[dict[d].id] == dict[d] else Find(rows, d) == None)
  {
    LookupsAgree(a.store.memory.sessions, b.store.table.rows, d);
  }

  lemma LegalIssue(w: World, op: Op)
    requires Good(w) && Legal(w, op) && op.Issue?
    ensures RowsOk(w.state.rows, w.clock) && DistinctBearers(w.state.rows) && w.clock <= op.now
    ensures op.id !in w.state.rows && forall i | i in w.state.rows :: w.state.rows[i].bearer != Sha256(op.bearer)
  {
  }

  lemma GoodRows(w: World)
    requires Good(w)
    ensures RowsOk(w.state.rows, w.clock) && DistinctBearers(w.state.rows)
    ensures forall i | i in w.state.rows :: w.state.rows[i].id == i
  {
  }

  /** What an operation on one session does to the store: its replacement if it has one, and an event if it revokes. */
  lemma ReplacingStep(w: World, op: Op)
    requires !op.Issue? && !op.RevokeEvery?
    ensures var rows := w.state.rows; var written := Replacement(rows, op);
      Step(w, op).state ==
      State(match written case Some(r) => rows[r.id := r] case None => rows,
            if op.RevokeOne? && written.Some?
            then w.state.events + [Event(op.kind, Logout, written.value.user, Some(written.value.id))]
            else w.state.events)
  {
    hide Replacement;
  }

  lemma RotateStep(w: World, op: Op)
    requires op.RotateTo?
    ensures Step(w, op).state == w.state.(rows := RowsAfter(w.state.rows, op))
    ensures FindValid(w.state.rows, op.bearer, op.securityVersion, op.now) == None ==>
      RowsAfter(w.state.rows, op) == w.state.rows
      && RowsAfter(w.state.rows, Op.Resolve(op.bearer, op.securityVersion, op.now)) == w.state.rows
  {
  }

  /** Resolving and then renewing the tokens of the touched row is the rotation of the original row. */
  lemma RotateMeetsSpec(w: World, op: Op)
    requires Good(w) && Legal(w, op) && op.RotateTo?
    requires FindValid(w.state.rows, op.bearer, op.securityVersion, op.now).Some?
    ensures var i := FindValid(w.state.rows, op.bearer, op.securityVersion, op.now).value;
      var rows := RowsAfter(w.state.rows, Op.Resolve(op.bearer, op.securityVersion, op.now));
      var rotated := Rotate(w.state.rows[i], op.newBearer, op.newCsrf, op.selection, op.now);
      && i in w.state.rows && rotated.id == i && i in rows && SameIdentity(rows[i], rotated)
      && rows[i].membership == w.state.rows[i].membership
      && Coherent(rotated) && !BearerTaken(rows, rotated.bearer, i)
      && rows[i := rotated] == RowsAfter(w.state.rows, op)
  {
    ReplacementEvolves(w.state.rows, w.clock, op);
    ReplacementEvolves(w.state.rows, w.clock, Op.Resolve(op.bearer, op.securityVersion, op.now));
  }

  function RevokeFirst(rows: Rows, active: seq<Session>, k: nat, now: int): Rows
    requires k <= |active|
  {
    map i | i in rows :: if exists j | 0 <= j < k :: active[j].id == i then Revoke(rows[i], now, RevokeAll) else rows[i]
  }

  /** What revoking every session of a user does to the store: the rows, and one aggregate event if there was any. */
  lemma RevokeEveryStep(w: World, user: nat, now: int)
    ensures var rows := w.state.rows;
      Step(w, Op.RevokeEvery(user, now)).state ==
      State(AfterRevokeEvery(rows, user, now, RevokeAll),
            w.state.events +
            if exists i :: Unrevoked(rows, user, i) then [Event(AllSessionsRevoked, RevokeAll, user, None)] else [])
  {
    hide AfterRevokeEvery, Unrevoked;
  }

  lemma RevokedNone(rows: Rows, active: seq<Session>, now: int)
    ensures RevokeFirst(rows, active, 0, now) == rows
  {
  }

  lemma RevokeNext(rows: Rows, clock: int, active: seq<Session>, k: nat, user: nat, now: int)
    requires RowsOk(rows, clock) && DistinctBearers(rows) && ListsActive(active, rows, user) && k < |active|
    ensures var done := RevokeFirst(rows, active, k, now); var revoked := Revoke(active[k], now, RevokeAll);
      && active[k].id in done && done[active[k].id] == active[k]
      && Coherent(revoked) && !BearerTaken(done, revoked.bearer, revoked.id)
      && RevokeFirst(rows, active, k + 1, now) == done[active[k].id := revoked]
  {
  }

  lemma RevokedAll(rows: Rows, active: seq<Session>, user: nat, now: int)
    requires ListsActive(active, rows, user) && forall i | i in rows :: rows[i].id == i
    ensures RevokeFirst(rows, active, |active|, now) == AfterRevokeEvery(rows, user, now, RevokeAll)
    ensures |active| == |set i | i in rows && Unrevoked(rows, user, i)|
    ensures |active| > 0 <==> exists i :: Unrevoked(rows, user, i)
  {
    forall i | Unrevoked(rows, user, i)
      ensures exists j | 0 <= j < |active| :: active[j].id == i
    {
      assert rows[i] in active;
      var j :| 0 <= j < |active| && active[j] == rows[i];
      assert active[j].id == i;
    }
    ListedOnce(rows, active, user, |active|);
    assert (set j | 0 <= j < |active| :: active[j].id) == set i | i in rows && Unrevoked(rows, user, i);
  }

  lemma {:induction false} ListedOnce(rows: Rows, active: seq<Session>, user: nat, k: nat)
    requires ListsActive(active, rows, user) && k <= |active|
    ensures |set j | 0 <= j < k :: active[j].id| == k
  {
    var ids := set j | 0 <= j < k :: active[j].id;
    if k > 0 {
      ListedOnce(rows, active, user, k - 1);
      var before := set j | 0 <= j < k - 1 :: active[j].id;
      assert ids == before + {active[k - 1].id};
      assert active[k - 1].id !in before;
    } else {
      assert ids == {};
    }
  }

  lemma EvictNone(rows: Rows, now: int, user: nat, queue: seq<Stamp>)
    ensures Evict(rows, Elements(queue[..0]), now) == rows && EvictionEvents(user, queue[..0]) == []
  {
  }

  /** Evicting the next session in the queue is one more row revoked and one more event. */
  lemma EvictNext(rows: Rows, clock: int, queue: seq<Stamp>, k: nat, r: Session, user: nat, now: int)
    requires RowsOk(rows, clock) && DistinctBearers(rows)
    requires Ascending(queue) && k < |queue| && queue[k] == StampOf(r)
    requires Unrevoked(rows, user, r.id) && rows[r.id] == r
    ensures var done := Evict(rows, Elements(queue[..k]), now); var revoked := Revoke(r, now, ConcurrentLimit);
      && r.id in done && done[r.id] == r
      && Coherent(revoked) && !BearerTaken(done, revoked.bearer, revoked.id)
      && Evict(rows, Elements(queue[..k + 1]), now) == done[r.id := revoked]
    ensures EvictionEvents(user, queue[..k + 1])
         == EvictionEvents(user, queue[..k]) + [Event(SessionRevoked, ConcurrentLimit, r.user, Some(r.id))]
  {
    assert queue[..k + 1][..k] == queue[..k];
    assert Elements(queue[..k + 1]) == Elements(queue[..k]) + {queue[k]};
    assert queue[k] !in Elements(queue[..k]);
  }

  lemma EvictDone(rows: Rows, op: Op, queue: seq<Stamp>, k: nat)
    requires op.Issue? && Ascending(queue) && queue == Ordered(ValidStamps(rows, op.user, op.securityVersion, op.now))
    requires k == Excess(|queue|) <= |queue|
    ensures Elements(queue[..k]) == Evicted(rows, op.user, op.securityVersion, op.now)
    ensures queue[..k] == Ordered(Evicted(rows, op.user, op.securityVersion, op.now))
  {
    var valid := ValidStamps(rows, op.user, op.securityVersion, op.now);
    OrderedAscends(valid);
    ElementsSize(queue);
    PrefixIsOldest(queue, k);
    OrderedAscends(Evicted(rows, op.user, op.securityVersion, op.now));
    AscendingUnique(queue[..k], Ordered(Evicted(rows, op.user, op.securityVersion, op.now)));
  }

  lemma NewBearerFree(rows: Rows, op: Op, evicted: set<Stamp>, now: int)
    requires op.Issue? && forall i | i in rows :: rows[i].bearer != Sha256(op.bearer)
    ensures !BearerTaken(Evict(rows, evicted, now), Sha256(op.bearer), op.id)
  {
  }

  /** The filtered and sorted list is the user's valid sessions, oldest first. */
  lemma SortedIsOrdered(rows: Rows, active: seq<Session>, valid: seq<Session>, user: nat, v: nat, now: int)
    requires forall i | i in rows :: rows[i].id == i
    requires ListsActive(active, rows, user)
    requires forall r :: r in valid <==> r in active && IsValid(r, now, v)
    requires forall i, j | 0 <= i < j < |valid| :: valid[i].id != valid[j].id
    ensures Ascending(Stamps(SortByAge(valid)))
    ensures Stamps(SortByAge(valid)) == Ordered(ValidStamps(rows, user, v, now))
    ensures forall x :: x in SortByAge(valid) <==> x in valid
  {
    SortSorts(valid);
    var sorted := SortByAge(valid);
    var want := ValidStamps(rows, user, v, now);
    forall r | r in sorted
      ensures StampOf(r) in want
    {
      assert r in active;
    }
    forall x | x in want
      ensures exists r :: r in sorted && StampOf(r) == x
    {
      assert rows[x.id] in active;
      assert rows[x.id] in sorted;
    }
    SameStamps(sorted, want);
    OrderedAscends(want);
    AscendingUnique(Stamps(sorted), Ordered(want));
  }

  lemma SameStamps(rs: seq<Session>, want: set<Stamp>)
    requires forall r | r in rs :: StampOf(r) in want
    requires forall x | x in want :: exists r :: r in rs && StampOf(r) == x
    ensures Elements(Stamps(rs)) == want
  {
    forall x | x in want
      ensures x in Stamps(rs)
    {
      var r :| r in rs && StampOf(r) == x;
      var k :| 0 <= k < |rs| && rs[k] == r;
      assert Stamps(rs)[k] == x;
    }
  }
}

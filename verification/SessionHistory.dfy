/** Theorems about whole histories of session operations, from an empty table. */
module SessionHistory {
  import opened Prelude
  import opened Ranking
  import opened Sessions
  import opened SessionInvariants

  // ---- audit conservation ---------------------------------------------------------------------------

  /** How many events with a given reason name a given session. */
  function Mentions(events: seq<Event>, reason: Reason, i: nat): nat {
    if events == [] then 0
    else
      var last := events[|events| - 1];
      Mentions(events[..|events| - 1], reason, i) + (if last.reason == reason && last.session == Some(i) then 1 else 0)
  }

  lemma {:induction false} MentionsConcat(a: seq<Event>, b: seq<Event>, reason: Reason, i: nat)
    ensures Mentions(a + b, reason, i) == Mentions(a, reason, i) + Mentions(b, reason, i)
  {
    if b == [] {
      assert a + b == a;
    } else {
      var n := |b| - 1;
      assert (a + b)[..|a + b| - 1] == a + b[..n];
      MentionsConcat(a, b[..n], reason, i);
    }
  }

  predicate RevokedFor(rows: Rows, reason: Reason, i: nat) {
    i in rows && rows[i].revokedReason == Some(reason)
  }

  /** The reasons whose revocations are audited one session at a time. */
  predicate Individual(reason: Reason) {
    reason == ConcurrentLimit || reason == Logout
  }

  /** Sessions revoked for an individual reason and the events naming them are in bijection. */
  ghost predicate Audited(s: State) {
    forall reason, i | Individual(reason) ::
      Mentions(s.events, reason, i) == if RevokedFor(s.rows, reason, i) then 1 else 0
  }

  lemma {:induction false} EvictionMentions(user: nat, q: seq<Stamp>, reason: Reason, i: nat)
    requires forall j, k | 0 <= j < k < |q| :: q[j].id != q[k].id
    ensures Mentions(EvictionEvents(user, q), reason, i)
         == if reason == ConcurrentLimit && (exists k | 0 <= k < |q| :: q[k].id == i) then 1 else 0
  {
    if q != [] {
      var n := |q| - 1;
      EvictionMentions(user, q[..n], reason, i);
      var e := Event(SessionRevoked, ConcurrentLimit, user, Some(q[n].id));
      assert EvictionEvents(user, q) == EvictionEvents(user, q[..n]) + [e];
      assert (EvictionEvents(user, q[..n]) + [e])[..|EvictionEvents(user, q[..n])|] == EvictionEvents(user, q[..n]);
      assert forall k | 0 <= k < n :: q[..n][k] == q[k];
    }
  }

  lemma IssueAudits(rows: Rows, clock: int, op: Op, reason: Reason, i: nat)
    requires RowsOk(rows, clock) && op.Issue? && op.id !in rows && clock <= op.now && Individual(reason)
    ensures Mentions(EventsOf(rows, op), reason, i) + (if RevokedFor(rows, reason, i) then 1 else 0)
         == if RevokedFor(AfterIssue(rows, op), reason, i) then 1 else 0
  {
    var evicted := Evicted(rows, op.user, op.securityVersion, op.now);
    var q := Ordered(evicted);
    OrderedAscends(evicted);
    var valid := ValidStamps(rows, op.user, op.securityVersion, op.now);
    OldestWithin(valid, Excess(|valid|));
    forall k | 0 <= k < |q|
      ensures q[k].id in rows && q[k] == StampOf(rows[q[k].id])
    {
      assert q[k] in Elements(q);
    }
    forall j, k | 0 <= j < k < |q|
      ensures q[j].id != q[k].id
    {
      assert Before(q[j], q[k]);
    }
    EvictionMentions(op.user, q, reason, i);
    if i in rows && StampOf(rows[i]) in evicted {
      EvictedAreValid(rows, op.user, op.securityVersion, op.now, i);
      assert StampOf(rows[i]) in Elements(q);
    }
  }

  lemma StepAudits(s: State, clock: int, op: Op)
    requires RowsOk(s.rows, clock) && clock <= op.now && (op.Issue? ==> op.id !in s.rows)
    requires Audited(s)
    ensures Audited(Apply(s, op))
  {
    forall reason, i | Individual(reason)
      ensures Mentions(Apply(s, op).events, reason, i) == if RevokedFor(Apply(s, op).rows, reason, i) then 1 else 0
    {
      var added := EventsOf(s.rows, op);
      MentionsConcat(s.events, added, reason, i);
      if op.Issue? {
        IssueAudits(s.rows, clock, op, reason, i);
      } else {
        OtherAudits(s.rows, clock, op, reason, i);
      }
    }
  }

  lemma OtherAudits(rows: Rows, clock: int, op: Op, reason: Reason, i: nat)
    requires RowsOk(rows, clock) && !op.Issue? && clock <= op.now && Individual(reason)
    ensures Mentions(EventsOf(rows, op), reason, i) + (if RevokedFor(rows, reason, i) then 1 else 0)
         == if RevokedFor(RowsAfter(rows, op), reason, i) then 1 else 0
  {
    if !op.RevokeEvery? && Replacement(rows, op).Some? {
      ReplacementEvolves(rows, clock, op);
      ReplacementReason(rows, clock, op);
      hide Replacement;
      var r := Replacement(rows, op).value;
      if op.RevokeOne? {
        var e := Event(op.kind, Logout, r.user, Some(r.id));
        assert [e][..0] == [];
      }
    }
  }

  lemma ReplacementReason(rows: Rows, clock: int, op: Op)
    requires RowsOk(rows, clock) && !op.Issue? && !op.RevokeEvery? && Replacement(rows, op).Some?
    ensures Replacement(rows, op).value.revokedReason == if op.RevokeOne? then Some(Logout) else None
  {
  }

  // ---- how often resolve writes -----------------------------------------------------------------------

  /** Each write by resolve moved last_seen_at a minute or more; a session not in the table has none. */
  ghost predicate Paced(w: World) {
    forall i: nat :: if i in w.state.rows
      then Touches(w, i) * MINUTE <= w.state.rows[i].lastSeenAt - w.state.rows[i].createdAt
      else Touches(w, i) == 0
  }

  lemma SeenAdvances(rows: Rows, clock: int, op: Op)
    requires RowsOk(rows, clock) && clock <= op.now && (op.Issue? ==> op.id !in rows)
    ensures var after := RowsAfter(rows, op);
      && (TouchedBy(rows, op).Some? ==> TouchedBy(rows, op).value in rows)
      && (forall i | i in rows ::
            && i in after && after[i].createdAt == rows[i].createdAt
            && rows[i].lastSeenAt + (if TouchedBy(rows, op) == Some(i) then MINUTE else 0) <= after[i].lastSeenAt)
      && (forall i | i in after && i !in rows :: after[i].createdAt <= after[i].lastSeenAt)
  {
    StepEvolves(rows, clock, op);
    if op.Issue? || op.RevokeEvery? {
      hide Evicted;
    } else {
      if Replacement(rows, op).Some? {
        ReplacementSeen(rows, clock, op);
      }
      Untouched(rows, op);
      hide Replacement, TouchedBy;
    }
  }

  lemma Untouched(rows: Rows, op: Op)
    requires !op.Issue? && !op.RevokeEvery?
    ensures Replacement(rows, op) == None ==> TouchedBy(rows, op) == None
  {
  }

  lemma StepPaces(w: World, op: Op)
    requires RowsOk(w.state.rows, w.clock) && Legal(w, op) && Paced(w)
    ensures Paced(Step(w, op))
  {
    SeenAdvances(w.state.rows, w.clock, op);
    StepEvolves(w.state.rows, w.clock, op);
    hide RowsAfter, TouchedBy, RowsOk, Evolves, Step, Touches;
    forall i: nat {
      TouchCounted(w, op, i);
    }
  }

  lemma TouchCounted(w: World, op: Op, i: nat)
    ensures Step(w, op).state.rows == RowsAfter(w.state.rows, op)
    ensures Touches(Step(w, op), i) == Touches(w, i) + if TouchedBy(w.state.rows, op) == Some(i) then 1 else 0
  {
    hide RowsAfter, TouchedBy, EventsOf;
  }

  lemma ReplacementSeen(rows: Rows, clock: int, op: Op)
    requires RowsOk(rows, clock) && clock <= op.now
    requires !op.Issue? && !op.RevokeEvery? && Replacement(rows, op).Some?
    ensures var r := Replacement(rows, op).value;
      && r.id in rows
      && rows[r.id].lastSeenAt + (if TouchedBy(rows, op) == Some(r.id) then MINUTE else 0) <= r.lastSeenAt
      && (TouchedBy(rows, op).Some? ==> TouchedBy(rows, op) == Some(r.id))
  {
  }

  // ---- every history ------------------------------------------------------------------------------------

  ghost predicate Good(w: World) {
    && RowsOk(w.state.rows, w.clock)
    && DistinctBearers(w.state.rows)
    && Recorded(w.state.rows, w.used)
    && Capped(w.state.rows, w.clock)
    && Audited(w.state)
    && Paced(w)
  }

  lemma StepGood(w: World, op: Op)
    requires Good(w) && Legal(w, op)
    ensures Good(Step(w, op))
  {
    StepEvolves(w.state.rows, w.clock, op);
    StepKeepsBearers(w.state.rows, w.clock, w.used, op);
    StepKeepsCap(w.state.rows, w.clock, op);
    StepAudits(w.state, w.clock, op);
    StepPaces(w, op);
    hide RowsAfter, EventsOf, RowsOk, DistinctBearers, Recorded, Capped, Audited, Paced;
  }

  lemma {:induction false} RunGood(w: World, ops: seq<Op>)
    requires Good(w) && LegalRun(w, ops)
    ensures Good(Run(w, ops))
    decreases |ops|
  {
    hide Good, Step, Legal;
    if ops != [] {
      StepGood(w, ops[0]);
      RunGood(Step(w, ops[0]), ops[1..]);
    }
  }

  lemma StartGood()
    ensures Good(START)
  {
  }

  /**
   After any history, no user holds more than five valid sessions at one security version, now or at any later time.
   */
  lemma CapAlwaysHolds(ops: seq<Op>, user: nat, securityVersion: nat, later: int)
    requires LegalRun(START, ops) && Run(START, ops).clock <= later
    ensures |ValidStamps(Run(START, ops).state.rows, user, securityVersion, later)| <= MAX_CONCURRENT
  {
    StartGood();
    RunGood(START, ops);
    var w := Run(START, ops);
    ValidityOnlyFades(w.state.rows, user, securityVersion, w.clock, later);
    SubsetSize(ValidStamps(w.state.rows, user, securityVersion, later),
      ValidStamps(w.state.rows, user, securityVersion, w.clock));
  }

  /** Expiry arithmetic after any history: the idle limit never passes last use + 30 min nor creation + 8 h. */
  lemma ExpiryAlwaysBounded(ops: seq<Op>, i: nat)
    requires LegalRun(START, ops) && i in Run(START, ops).state.rows
    ensures var r := Run(START, ops).state.rows[i];
      r.idleExpiresAt <= Earliest(r.lastSeenAt + IDLE_TIMEOUT, r.createdAt + ABSOLUTE_TIMEOUT)
  {
    StartGood();
    RunGood(START, ops);
  }

  /** resolve writes at most 479 times in a session's life. */
  lemma AtMost479Touches(ops: seq<Op>, i: nat)
    requires LegalRun(START, ops)
    ensures Touches(Run(START, ops), i) <= 479
  {
    StartGood();
    RunGood(START, ops);
  }

  /**
   Each session revoked by the cap, and each one logged out, is named by exactly one event, and no other session is.
   */
  lemma AuditAlwaysMatches(ops: seq<Op>, reason: Reason, i: nat)
    requires LegalRun(START, ops) && Individual(reason)
    ensures var s := Run(START, ops).state;
      Mentions(s.events, reason, i) == if RevokedFor(s.rows, reason, i) then 1 else 0
  {
    StartGood();
    RunGood(START, ops);
  }

  /** Once revoked, a record never changes again. */
  lemma {:induction false} RevokedForever(w: World, ops: seq<Op>, i: nat)
    requires Good(w) && LegalRun(w, ops)
    requires i in w.state.rows && w.state.rows[i].revokedAt.Some?
    ensures i in Run(w, ops).state.rows && Run(w, ops).state.rows[i] == w.state.rows[i]
    decreases |ops|
  {
    if ops != [] {
      StepGood(w, ops[0]);
      StepEvolves(w.state.rows, w.clock, ops[0]);
      hide RowsAfter;
      RevokedForever(Step(w, ops[0]), ops[1..], i);
    }
  }

  /** A bearer digest that was used and no longer finds a session never finds one again. */
  lemma {:induction false} RetiredForever(w: World, ops: seq<Op>, d: Digest)
    requires Good(w) && LegalRun(w, ops)
    requires d in w.used && Find(w.state.rows, d) == None
    ensures Find(Run(w, ops).state.rows, d) == None
    decreases |ops|
  {
    if ops != [] {
      var op := ops[0];
      StepGood(w, op);
      StepRetired(w, op, d);
      RetiredForever(Step(w, op), ops[1..], d);
    }
  }

  lemma StepRetired(w: World, op: Op, d: Digest)
    requires Good(w) && Legal(w, op) && d in w.used && Find(w.state.rows, d) == None
    ensures Find(Step(w, op).state.rows, d) == None
  {
    var rows, after := w.state.rows, RowsAfter(w.state.rows, op);
    forall i | i in after
      ensures after[i].bearer != d
    {
      if op.Issue? {
        IssueEvolves(rows, w.clock, op);
      } else if op.RevokeEvery? {
        RevokeEveryEvolves(rows, w.clock, op.user, op.now, RevokeAll);
      } else if Replacement(rows, op).Some? {
        ReplacementEvolves(rows, w.clock, op);
      }
      assert i in rows ==> !Holds(rows, d, i);
    }
  }

  /**
   Rotation: the old bearer finds nothing, then and ever after, and the new one finds the same session,
   still valid; an unusable bearer rotates nothing.
   */
  lemma RotationMovesBearer(w: World, op: Op, later: seq<Op>)
    requires Good(w) && Legal(w, op) && op.RotateTo? && LegalRun(Step(w, op), later)
    ensures var found := FindValid(w.state.rows, op.bearer, op.securityVersion, op.now);
      var after := Step(w, op).state.rows;
      if found == None then after == w.state.rows
      else
        && FindValid(after, op.newBearer, op.securityVersion, op.now) == found
        && Find(Run(Step(w, op), later).state.rows, Sha256(op.bearer)) == None
  {
    var rows, after := w.state.rows, RowsAfter(w.state.rows, op);
    StepGood(w, op);
    if FindValid(rows, op.bearer, op.securityVersion, op.now).Some? {
      ReplacementEvolves(rows, w.clock, op);
      var i := Replacement(rows, op).value.id;
      RotatedStaysValid(rows, w.clock, op);
      hide Replacement;
      assert Holds(after, Sha256(op.newBearer), i);
      forall j | j in after
        ensures after[j].bearer != Sha256(op.bearer)
      {
        assert rows[i].bearer == Sha256(op.bearer);
      }
      RetiredForever(Step(w, op), later, Sha256(op.bearer));
    }
  }

  lemma RotatedStaysValid(rows: Rows, clock: int, op: Op)
    requires RowsOk(rows, clock) && clock <= op.now && op.RotateTo?
    requires FindValid(rows, op.bearer, op.securityVersion, op.now).Some?
    ensures Replacement(rows, op).Some?
    ensures var r := Replacement(rows, op).value;
      && IsValid(r, op.now, op.securityVersion)
      && FindValid(rows, op.bearer, op.securityVersion, op.now) == Some(r.id)
  {
  }

  // ---- keeping a session alive ---------------------------------------------------------------------------

  /** The longest pause between two resolves that keeps a session alive. */
  const SAFE_GAP := IDLE_TIMEOUT - LAST_SEEN_INTERVAL

  /** A row whose last resolve was at `last`, never rotated: its idle limit still leaves more than 29 minutes. */
  predicate KeptAlive(r: Session, last: int) {
    && r.revokedAt == None
    && r.lastSeenAt <= last < r.lastSeenAt + MINUTE
    && r.idleExpiresAt == Earliest(r.lastSeenAt + IDLE_TIMEOUT, r.absoluteExpiresAt)
  }

  /** An operation that asks for session i: a resolve of its bearer at its own security version. */
  predicate Asks(w: World, op: Op, i: nat) {
    && op.Resolve? && i in w.state.rows
    && Sha256(op.bearer) == w.state.rows[i].bearer && op.securityVersion == w.state.rows[i].securityVersion
  }

  /** No operation revokes or rotates session i, and each resolve of it comes within `gap` of the one before. */
  ghost predicate SteadilyUsed(w: World, ops: seq<Op>, i: nat, last: int, gap: int)
    decreases |ops|
  {
    if ops == [] then true
    else
      var after := Step(w, ops[0]);
      && i in w.state.rows && i in after.state.rows
      && after.state.rows[i].revokedAt == None && after.state.rows[i].bearer == w.state.rows[i].bearer
      && (Asks(w, ops[0], i) ==> ops[0].now <= last + gap)
      && SteadilyUsed(after, ops[1..], i, if Asks(w, ops[0], i) then ops[0].now else last, gap)
  }

  /** Every resolve of session i before the end of its 8 hours finds it. */
  ghost predicate AlwaysAnswered(w: World, ops: seq<Op>, i: nat)
    decreases |ops|
  {
    if ops == [] then true
    else
      && (Asks(w, ops[0], i) && ops[0].now < w.state.rows[i].absoluteExpiresAt ==>
            FindValid(w.state.rows, ops[0].bearer, ops[0].securityVersion, ops[0].now) == Some(i))
      && AlwaysAnswered(Step(w, ops[0]), ops[1..], i)
  }

  /** What the history so far has left of session i: still alive, or past its 8 hours. */
  predicate Lasting(r: Session, last: int, clock: int) {
    r.revokedAt == None && (KeptAlive(r, last) || r.absoluteExpiresAt <= clock)
  }

  /**
   What an operation that neither revokes nor rotates a session does to its times: a resolve of it touches it, the rest
   nothing.
   */
  lemma OthersLeaveTimes(w: World, op: Op, i: nat)
    requires RowsOk(w.state.rows, w.clock) && DistinctBearers(w.state.rows) && Legal(w, op)
    requires i in w.state.rows && w.state.rows[i].bearer in w.used
    requires var after := RowsAfter(w.state.rows, op);
      i in after && after[i].revokedAt == None && after[i].bearer == w.state.rows[i].bearer
    ensures var r, n := w.state.rows[i], RowsAfter(w.state.rows, op)[i];
      && n.absoluteExpiresAt == r.absoluteExpiresAt && n.securityVersion == r.securityVersion
      && (if Asks(w, op, i) && IsValid(r, op.now, r.securityVersion) then n == Touch(r, op.now)
          else n.lastSeenAt == r.lastSeenAt && n.idleExpiresAt == r.idleExpiresAt)
  {
    var rows := w.state.rows;
    StepEvolves(rows, w.clock, op);
    hide RowsOk, AfterIssue, AfterRevokeEvery, Evicted, Oldest;
    if op.Issue? {
      IssueEvolves(rows, w.clock, op);
      IssueKeepsTimes(rows, op, i);
    } else if op.RevokeEvery? {
      RevokeEveryKeepsTimes(rows, op, i);
    } else if Replacement(rows, op).Some? {
      ReplacementEvolves(rows, w.clock, op);
    } else if Asks(w, op, i) {
      assert Holds(rows, Sha256(op.bearer), i);
    }
  }

  lemma IssueKeepsTimes(rows: Rows, op: Op, i: nat)
    requires op.Issue? && i in rows && op.id !in rows
    ensures var n := AfterIssue(rows, op)[i];
      n.lastSeenAt == rows[i].lastSeenAt && n.idleExpiresAt == rows[i].idleExpiresAt
  {
    hide Evicted;
  }

  lemma RevokeEveryKeepsTimes(rows: Rows, op: Op, i: nat)
    requires op.RevokeEvery? && i in rows
    ensures var n := AfterRevokeEvery(rows, op.user, op.now, RevokeAll)[i];
      n.lastSeenAt == rows[i].lastSeenAt && n.idleExpiresAt == rows[i].idleExpiresAt
  {
  }

  lemma StepKeepsAlive(w: World, op: Op, i: nat, last: int)
    requires Good(w) && Legal(w, op) && i in w.state.rows && Lasting(w.state.rows[i], last, w.clock) && last <= w.clock
    requires var after := Step(w, op).state.rows;
      i in after && after[i].revokedAt == None && after[i].bearer == w.state.rows[i].bearer
    requires Asks(w, op, i) ==> op.now <= last + SAFE_GAP
    ensures Asks(w, op, i) && op.now < w.state.rows[i].absoluteExpiresAt ==>
      FindValid(w.state.rows, op.bearer, op.securityVersion, op.now) == Some(i)
    ensures Lasting(Step(w, op).state.rows[i], if Asks(w, op, i) then op.now else last, op.now)
  {
    assert w.state.rows[i].bearer in w.used;
    OthersLeaveTimes(w, op, i);
    if Asks(w, op, i) {
      assert Holds(w.state.rows, Sha256(op.bearer), i);
    }
    hide RowsAfter, Good, EventsOf, TouchedBy, Touches;
  }

  lemma {:induction false} SteadyRun(w: World, ops: seq<Op>, i: nat, last: int)
    requires Good(w) && LegalRun(w, ops) && last <= w.clock
    requires i in w.state.rows && Lasting(w.state.rows[i], last, w.clock) && SteadilyUsed(w, ops, i, last, SAFE_GAP)
    ensures AlwaysAnswered(w, ops, i)
    decreases |ops|
  {
    if ops != [] {
      StepGood(w, ops[0]);
      StepKeepsAlive(w, ops[0], i, last);
      hide Good, Legal, Lasting, FindValid;
      SteadyRun(Step(w, ops[0]), ops[1..], i, if Asks(w, ops[0], i) then ops[0].now else last);
    }
  }

  /**
   In any history, a session that no later operation revokes or rotates and that is resolved at gaps of at most
   29 minutes, counted from its issue, answers every such resolve before its 8 hours end.
   */
  lemma SteadyUseKeepsAlive(before: seq<Op>, issue: Op, ops: seq<Op>)
    requires LegalRun(START, before) && issue.Issue? && Legal(Run(START, before), issue)
    requires var w := Step(Run(START, before), issue);
      LegalRun(w, ops) && SteadilyUsed(w, ops, issue.id, issue.now, SAFE_GAP)
    ensures AlwaysAnswered(Step(Run(START, before), issue), ops, issue.id)
  {
    var w := Run(START, before);
    StartGood();
    RunGood(START, before);
    StepGood(w, issue);
    assert Step(w, issue).state.rows[issue.id] ==
      Fresh(issue.id, issue.user, issue.bearer, issue.csrf, issue.securityVersion, issue.now);
    hide Run, Good, Evict, Legal;
    SteadyRun(Step(w, issue), ops, issue.id, issue.now);
  }

  /**
   The history that loses a session: issued, resolved just too early to be written, and then 30 minutes after issue.
   */
  const ISSUED := Issue(0, 0, 0, 0, 0, 0)
  const EARLY := Op.Resolve(0, 0, LAST_SEEN_INTERVAL - 1)
  const LATE := Op.Resolve(0, 0, IDLE_TIMEOUT)

  lemma OneSessionIssued()
    ensures Legal(START, ISSUED)
    ensures var w := Step(START, ISSUED);
      w.clock == 0 && w.state.rows == map[0 := Fresh(0, 0, 0, 0, 0, 0)]
  {
    assert Evict(map[], Evicted(map[], 0, 0, 0), 0) == map[];
  }

  lemma EarlyResolveWritesNothing(w: World)
    requires w.clock == 0 && w.state.rows == map[0 := Fresh(0, 0, 0, 0, 0, 0)]
    ensures Legal(w, EARLY) && Asks(w, EARLY, 0)
    ensures Step(w, EARLY).state.rows == w.state.rows && Step(w, EARLY).clock == EARLY.now
    ensures FindValid(w.state.rows, 0, 0, EARLY.now) == Some(0)
  {
    assert Holds(w.state.rows, Sha256(0), 0);
  }

  lemma LateResolveFindsNothing(w: World)
    requires w.clock == EARLY.now && w.state.rows == map[0 := Fresh(0, 0, 0, 0, 0, 0)]
    ensures Legal(w, LATE) && Asks(w, LATE, 0) && Step(w, LATE).state.rows == w.state.rows
    ensures FindValid(w.state.rows, 0, 0, LATE.now) == None && LATE.now < w.state.rows[0].absoluteExpiresAt
  {
    assert Holds(w.state.rows, Sha256(0), 0);
  }

  /** The bound is tight: however little longer than 29 minutes pauses may be, some history then loses its session. */
  lemma LongerGapCanLoseSession(gap: int)
    requires gap > SAFE_GAP
    ensures exists issue: Op, ops: seq<Op> ::
      && issue.Issue? && Legal(START, issue) && LegalRun(Step(START, issue), ops)
      && SteadilyUsed(Step(START, issue), ops, issue.id, issue.now, gap)
      && !AlwaysAnswered(Step(START, issue), ops, issue.id)
  {
    var w := Step(START, ISSUED);
    OneSessionIssued();
    EarlyResolveWritesNothing(w);
    var x := Step(w, EARLY);
    LateResolveFindsNothing(x);
    hide Step, Legal, FindValid, Asks;
    var y := Step(x, LATE);
    var ops := [EARLY, LATE];
    assert ops[1..] == [LATE] && [LATE][1..] == [];
    assert LegalRun(y, []) && LegalRun(x, [LATE]) && LegalRun(w, ops);
    assert SteadilyUsed(y, [], 0, LATE.now, gap) && SteadilyUsed(x, [LATE], 0, EARLY.now, gap)
      && SteadilyUsed(w, ops, 0, 0, gap);
    assert !AlwaysAnswered(x, [LATE], 0) && !AlwaysAnswered(w, ops, 0);
    assert ISSUED.Issue? && Legal(START, ISSUED);
  }
}

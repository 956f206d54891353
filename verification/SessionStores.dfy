/**
 The two session stores behind the service - a dictionary keyed by bearer digest and a table keyed by id -
 and the agreement of the two on every insertion, replacement and lookup.
 */
module SessionStores {
  import opened Prelude
  import opened Sessions
  import opened SessionInvariants

  // ---- the dictionary ---------------------------------------------------------------------------------

  type Dict = map<Digest, Session>

  /** The dictionary and the table hold the same records: each under its own digest, each under its own id. */
  ghost predicate Shows(m: Dict, rows: Rows) {
    && (forall d | d in m :: m[d].bearer == d && m[d].id in rows && rows[m[d].id] == m[d])
    && (forall i | i in rows :: rows[i].id == i && rows[i].bearer in m && m[rows[i].bearer] == rows[i])
  }

  /** The dictionary determines the table, so agreeing with it says everything about the records. */
  lemma ShowsOne(m: Dict, a: Rows, b: Rows)
    requires Shows(m, a) && Shows(m, b)
    ensures a == b
  {
    forall i | i in a
      ensures i in b && b[i] == a[i]
    {
      assert m[a[i].bearer] == a[i];
    }
    forall i | i in b
      ensures i in a
    {
      assert m[b[i].bearer] == b[i];
    }
  }

  /** `replace`: drop every entry with the record's id, then store the record under its digest. */
  function DictReplace(m: Dict, r: Session): Dict {
    (map d | d in m && m[d].id != r.id :: m[d])[r.bearer := r]
  }

  // ---- the table ---------------------------------------------------------------------------------------

  datatype Membership = Membership(user: nat, version: nat)

  /** What the table's foreign keys look up: the users, and the memberships with their user and version. */
  datatype Accounts = Accounts(users: set<nat>, memberships: map<nat, Membership>)

  /** The CHECK constraints every record of the service meets by itself. */
  predicate Coherent(r: Session) {
    && r.idleExpiresAt <= r.absoluteExpiresAt
    && (r.revokedAt == None <==> r.revokedReason == None)
    && (r.membership == None <==> r.membershipVersion == None)
  }

  /** The CHECK constraint on the selected version. */
  predicate Positive(r: Session) {
    r.membershipVersion.Some? ==> r.membershipVersion.value > 0
  }

  /** What every row of the table meets, having been written past that constraint. */
  ghost predicate AllPositive(rows: Rows) {
    forall i | i in rows :: Positive(rows[i])
  }

  /** The foreign key (selected_membership_id, user_id): the selected membership is one of the session's user. */
  predicate Owned(a: Accounts, r: Session) {
    r.membership.Some? ==> r.membership.value in a.memberships && a.memberships[r.membership.value].user == r.user
  }

  predicate BearerTaken(rows: Rows, d: Digest, except: nat) {
    exists j :: j in rows && j != except && rows[j].bearer == d
  }

  /** INSERT, or None on a key, unique, check or foreign-key violation. */
  function SqlInsert(a: Accounts, rows: Rows, r: Session): Option<Rows> {
    if r.id in rows || BearerTaken(rows, r.bearer, r.id) || !Coherent(r) || !Positive(r) || r.user !in a.users
      || !Owned(a, r)
    then None
    else Some(rows[r.id := r])
  }

  /** The columns UPDATE assigns; the others keep the stored values. */
  function Assigned(stored: Session, r: Session): Session {
    stored.(bearer := r.bearer, csrf := r.csrf, lastSeenAt := r.lastSeenAt, idleExpiresAt := r.idleExpiresAt,
            revokedAt := r.revokedAt, revokedReason := r.revokedReason,
            membership := r.membership, membershipVersion := r.membershipVersion)
  }

  /** Whether the table takes a row's selection; the foreign key is looked up again only when the membership changes. */
  predicate TakesSelection(a: Accounts, previous: Option<nat>, r: Session) {
    Positive(r) && (r.membership == previous || Owned(a, r))
  }

  /** UPDATE ... WHERE id: nothing when the id is missing, None on a unique, check or foreign-key violation. */
  function SqlUpdate(a: Accounts, rows: Rows, r: Session): Option<Rows> {
    if r.id !in rows then Some(rows)
    else
      var n := Assigned(rows[r.id], r);
      if BearerTaken(rows, r.bearer, r.id) || !Coherent(n) || !TakesSelection(a, rows[r.id].membership, n) then None
      else Some(rows[r.id := n])
  }

  // ---- the two agree ----------------------------------------------------------------------------------------

  /** The columns UPDATE leaves out are those no operation changes: a row is replaced, or its selection refused. */
  lemma UpdateIsReplaceIff(a: Accounts, rows: Rows, r: Session)
    requires r.id in rows && SameIdentity(rows[r.id], r) && Coherent(r) && !BearerTaken(rows, r.bearer, r.id)
    ensures SqlUpdate(a, rows, r) == if TakesSelection(a, rows[r.id].membership, r) then Some(rows[r.id := r]) else None
  {
    assert Assigned(rows[r.id], r) == r;
  }

  /** The table after a statement: its new rows, or the old ones when it was refused. */
  function After(rows: Rows, outcome: Option<Rows>): Rows {
    match outcome case Some(n) => n case None => rows
  }

  /** A replacement leaves the two stores with the same records exactly when the table takes the record's selection. */
  lemma ReplacementsAgreeIff(a: Accounts, m: Dict, rows: Rows, r: Session)
    requires Shows(m, rows) && AllPositive(rows) && r.id in rows && SameIdentity(rows[r.id], r)
    requires Coherent(r) && !BearerTaken(rows, r.bearer, r.id)
    ensures Shows(DictReplace(m, r), After(rows, SqlUpdate(a, rows, r)))
      <==> TakesSelection(a, rows[r.id].membership, r)
    ensures TakesSelection(a, rows[r.id].membership, r) ==> AllPositive(After(rows, SqlUpdate(a, rows, r)))
  {
    UpdateIsReplaceIff(a, rows, r);
    hide SqlUpdate;
    ReplacementShows(m, rows, r);
    if !TakesSelection(a, rows[r.id].membership, r) {
      assert Positive(rows[r.id]) && rows[r.id] != r;
      if Shows(DictReplace(m, r), rows) {
        ShowsOne(DictReplace(m, r), rows, rows[r.id := r]);
        assert false;
      }
    }
  }

  lemma ReplacementShows(m: Dict, rows: Rows, r: Session)
    requires Shows(m, rows) && r.id in rows && !BearerTaken(rows, r.bearer, r.id)
    ensures Shows(DictReplace(m, r), rows[r.id := r])
  {
  }

  /** An insertion does so exactly when the table knows the record's user and takes its selection. */
  lemma InsertionsAgreeIff(a: Accounts, m: Dict, rows: Rows, r: Session)
    requires Shows(m, rows) && AllPositive(rows) && r.id !in rows && Coherent(r) && !BearerTaken(rows, r.bearer, r.id)
    ensures Shows(m[r.bearer := r], After(rows, SqlInsert(a, rows, r)))
      <==> r.user in a.users && Positive(r) && Owned(a, r)
  {
    InsertionShows(m, rows, r);
    assert m[r.bearer := r][r.bearer] == r;
  }

  lemma InsertionShows(m: Dict, rows: Rows, r: Session)
    requires Shows(m, rows) && r.id !in rows && !BearerTaken(rows, r.bearer, r.id)
    ensures Shows(m[r.bearer := r], rows[r.id := r])
  {
  }

  /** Another user's membership, or version 0: the dictionary stores the record, the table refuses it. */
  lemma RefusedSelectionsSplitTheStores()
    ensures var stored := Fresh(0, 7, 0, 0, 1, 0);
      var accounts := Accounts({7, 8}, map[40 := Membership(8, 1), 41 := Membership(7, 1)]);
      var rows, m := map[0 := stored], map[stored.bearer := stored];
      var foreign := Rotate(stored, 1, 1, Some(Selection(40, 1)), 0);
      var zero := Rotate(stored, 1, 1, Some(Selection(41, 0)), 0);
      && Shows(m, rows)
      && SqlUpdate(accounts, rows, foreign) == None && DictReplace(m, foreign)[foreign.bearer] == foreign
      && SqlUpdate(accounts, rows, zero) == None && DictReplace(m, zero)[zero.bearer] == zero
  {
  }

  /** The authority a tenant switch asks: the membership's version, if it is the user's. */
  function ResolveActive(a: Accounts, user: nat, membership: nat): Option<Selection> {
    if membership in a.memberships && a.memberships[membership].user == user
    then Some(Selection(membership, a.memberships[membership].version)) else None
  }

  /** The selection the authority answers for a session's own user is one the table takes. */
  lemma SwitchIsTaken(a: Accounts, stored: Session, membership: nat, bearer: nat, csrf: nat, now: int)
    requires forall m | m in a.memberships :: a.memberships[m].version > 0
    requires ResolveActive(a, stored.user, membership).Some?
    ensures TakesSelection(a, stored.membership,
      Rotate(stored, bearer, csrf, ResolveActive(a, stored.user, membership), now))
  {
  }

  /** Both stores find the same record under a digest. */
  lemma LookupsAgree(m: Dict, rows: Rows, d: Digest)
    requires Shows(m, rows)
    ensures Find(rows, d) == if d in m then Some(m[d].id) else None
    ensures d in m ==> rows[m[d].id] == m[d]
  {
    if d in m {
      assert Holds(rows, d, m[d].id);
    }
  }
}

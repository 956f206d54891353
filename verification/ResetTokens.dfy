/** Password-reset tokens under every interleaving of the credential protocol. */
module ResetTokens {
  import opened Prelude
  import S = Sessions
  import opened Credentials
  import opened CredentialHistory

  type Tokens = map<nat, ResetToken>

  /** Digests are unique, no token is both consumed and revoked, and a user has at most one open token. */
  ghost predicate TokensOk(tokens: Tokens) {
    && (forall i, j | i in tokens && j in tokens && tokens[i].digest == tokens[j].digest :: i == j)
    && (forall i | i in tokens :: tokens[i].consumedAt == None || tokens[i].revokedAt == None)
    && (forall i, j | i in tokens && j in tokens && Open(tokens[i]) && Open(tokens[j]) ::
          tokens[i].user == tokens[j].user ==> i == j)
  }

  /** A token keeps its owner, digest and lifetime, and once consumed or revoked stays exactly as it is. */
  predicate Settles(t: ResetToken, n: ResetToken) {
    && n.user == t.user && n.digest == t.digest && n.createdAt == t.createdAt && n.expiresAt == t.expiresAt
    && (t.consumedAt.Some? || t.revokedAt.Some? ==> n == t)
  }

  /** Revoking a user's open tokens settles them and touches nothing else. */
  lemma RevokeOpenKeeps(tokens: Tokens, user: nat, spared: Option<nat>, now: int)
    requires TokensOk(tokens)
    ensures var after := RevokeOpen(tokens, user, spared, now);
      && TokensOk(after) && after.Keys == tokens.Keys
      && (forall i | i in tokens :: Settles(tokens[i], after[i]))
      && (forall i | i in after && Open(after[i]) && after[i].user == user :: Some(i) == spared)
  {
  }

  lemma RequestKeeps(db: Db, account: Option<nat>, token: nat, digest: S.Digest, now: int)
    requires TokensOk(db.tokens) && Opens(db, account, token, digest)
    ensures var after := RequestReset(db, account.value, token, digest, now).tokens;
      TokensOk(after) && forall i | i in db.tokens :: Settles(db.tokens[i], after[i])
  {
    RevokeOpenKeeps(db.tokens, account.value, None, now);
    hide RevokeOpen;
  }

  lemma CompleteKeeps(db: Db, token: nat, hash: nat, now: int)
    requires TokensOk(db.tokens) && token in db.tokens && Open(db.tokens[token])
      && HasCredential(db, db.tokens[token].user)
    ensures var after := CompleteReset(db, token, hash, now).tokens;
      && TokensOk(after) && after.Keys == db.tokens.Keys && after[token].consumedAt.Some?
      && (forall i | i in db.tokens :: Settles(db.tokens[i], after[i]))
      && (forall i | i in after && after[i].user == db.tokens[token].user :: !Open(after[i]))
  {
  }

  lemma RedeemableIsOpen(db: Db, digest: S.Digest, now: int)
    ensures Redeemable(db, digest, now).Some? ==>
      Redeems(db, digest, now, Redeemable(db, digest, now).value)
      && HasCredential(db, db.tokens[Redeemable(db, digest, now).value].user)
  {
  }

  /** The tokens one step leaves. */
  ghost function TokensAfter(sys: System, step: Step): Tokens {
    match step
    case Request(account, token, digest, now) =>
      if Opens(sys.db, account, token, digest) then RequestReset(sys.db, account.value, token, digest, now).tokens
      else sys.db.tokens
    case Complete(digest, hash, now) =>
      (match Redeemable(sys.db, digest, now)
       case Some(i) => CompleteReset(sys.db, i, hash, now).tokens
       case None => sys.db.tokens)
    case _ => sys.db.tokens
  }

  lemma StepTokens(sys: System, step: Step)
    ensures DbAfter(sys, step).tokens == TokensAfter(sys, step)
  {
    hide S.RowsAfter, S.EventsOf, S.AfterRevokeEvery, RevocationEvent, RevokeOpen, ChangeFor, Confirmed;
  }

  lemma StepKeepsTokens(sys: System, step: Step)
    requires TokensOk(sys.db.tokens)
    ensures var after := DbAfter(sys, step).tokens;
      TokensOk(after) && forall i | i in sys.db.tokens :: i in after && Settles(sys.db.tokens[i], after[i])
  {
    StepTokens(sys, step);
    match step {
      case Request(account, token, digest, now) =>
        if Opens(sys.db, account, token, digest) {
          RequestKeeps(sys.db, account, token, digest, now);
        }
      case Complete(digest, hash, now) =>
        RedeemableIsOpen(sys.db, digest, now);
        if Redeemable(sys.db, digest, now).Some? {
          CompleteKeeps(sys.db, Redeemable(sys.db, digest, now).value, hash, now);
        }
      case _ =>
    }
    hide DbAfter, TokensOk, RequestReset, CompleteReset, Redeemable;
  }

  /** After any interleaving: at most one open token a user, none both consumed and revoked, settled ones untouched. */
  lemma {:induction false} TokensStayOk(sys: System, steps: seq<Step>)
    requires TokensOk(sys.db.tokens)
    ensures TokensOk(Run(sys, steps).db.tokens)
    ensures forall i | i in sys.db.tokens ::
      i in Run(sys, steps).db.tokens && Settles(sys.db.tokens[i], Run(sys, steps).db.tokens[i])
    decreases |steps|
  {
    if steps != [] {
      StepKeepsTokens(sys, steps[0]);
      hide DbAfter, TokensOk;
      TokensStayOk(Next(sys, steps[0]), steps[1..]);
    }
  }

  /** What completing a reset leaves its user: no open token, no unrevoked session, and both versions one higher. */
  lemma CompletionClears(sys: System, step: Step, i: nat)
    requires TokensOk(sys.db.tokens) && step.Complete? && Redeemable(sys.db, step.digest, step.now) == Some(i)
    ensures var user, after := sys.db.tokens[i].user, DbAfter(sys, step);
      && i in after.tokens && after.tokens[i].consumedAt == Some(step.now)
      && (forall t | t in after.tokens && after.tokens[t].user == user :: !Open(after.tokens[t]))
      && (forall s | s in after.sessions && after.sessions[s].user == user :: after.sessions[s].revokedAt.Some?)
      && VersionOf(after, user) == VersionOf(sys.db, user) + 1
      && SecurityOf(after, user) == SecurityOf(sys.db, user) + 1
  {
    RedeemableIsOpen(sys.db, step.digest, step.now);
    CompleteKeeps(sys.db, i, step.hash, step.now);
    StepTables(sys, step);
    StepInLockstep(sys, step, sys.db.tokens[i].user);
  }

  /** A reset token's digest completes at most once, however long the run between. */
  lemma CompletesOnce(sys: System, first: Step, steps: seq<Step>, now: int)
    requires TokensOk(sys.db.tokens) && first.Complete? && Redeemable(sys.db, first.digest, first.now).Some?
    ensures Redeemable(Run(Next(sys, first), steps).db, first.digest, now) == None
  {
    var i := Redeemable(sys.db, first.digest, first.now).value;
    RedeemableIsOpen(sys.db, first.digest, first.now);
    CompletionClears(sys, first, i);
    StepKeepsTokens(sys, first);
    TokensStayOk(Next(sys, first), steps);
    RedeemableIsOpen(Run(Next(sys, first), steps).db, first.digest, now);
    hide Run, DbAfter, Redeemable;
  }
}

/**
 The audit contract twice over: the Python validator of a security event, and the SQL check expressions
 generated from the same policy table, under SQL's three-valued logic.
 */
module AuditContract {
  import opened Prelude
  import opened SqlLiterals

  // ---- SQL check expressions -----------------------------------------------------------------------------------

  datatype Truth = True | False | Unknown

  function Of(b: bool): Truth {
    if b then True else False
  }

  function Conj(a: Truth, b: Truth): Truth {
    if a == False || b == False then False else if a == True && b == True then True else Unknown
  }

  function Disj(a: Truth, b: Truth): Truth {
    if a == True || b == True then True else if a == False && b == False then False else Unknown
  }

  /** Equality of two truth values: unknown when either is. */
  function Same(a: Truth, b: Truth): Truth {
    if a == Unknown || b == Unknown then Unknown else Of(a == b)
  }

  function Negated(a: Truth): Truth {
    match a case True => False case False => True case Unknown => Unknown
  }

  type Byte = bv8

  /** A row of auth.security_events; the columns declared NOT NULL elsewhere are still nullable to a check. */
  datatype Row = Row(
    id: string, correlation: string, eventType: Option<string>, result: Option<string>, reason: Option<string>,
    user: Option<nat>, session: Option<nat>, membership: Option<nat>, role: Option<nat>, target: Option<nat>,
    permission: Option<string>, digest: Option<seq<Byte>>, kind: Option<string>, keyId: Option<int>,
    affected: Option<int>)

  datatype Text = EventType | Result | ReasonCode | PermissionId | SubjectKind

  datatype Column =
    | TextColumn(text: Text) | UserId | SessionId | MembershipId | RoleId | TargetMembershipId
    | SubjectDigest | SubjectKeyId | AffectedCount

  /** A check expression; a value list is held as the text between its parentheses. */
  datatype Check =
    | IsNull(column: Column) | IsNotNull(column: Column)
    | In(text: Text, list: string) | NotIn(text: Text, list: string)
    | Equal(text: Text, literal: string) | Differs(text: Text, literal: string)
    | IdIsUuid7 | CorrelationIsUuid
    | OctetLengthIs(length: nat) | KeyIdBetween(low: int, high: int) | CountAtLeast(low: int)
    | And(left: Check, right: Check) | Or(left: Check, right: Check) | Equals(left: Check, right: Check)

  function TextOf(row: Row, c: Text): Option<string> {
    match c
    case EventType => row.eventType
    case Result => row.result
    case ReasonCode => row.reason
    case PermissionId => row.permission
    case SubjectKind => row.kind
  }

  predicate Present(row: Row, c: Column) {
    match c
    case TextColumn(t) => TextOf(row, t).Some?
    case UserId => row.user.Some?
    case SessionId => row.session.Some?
    case MembershipId => row.membership.Some?
    case RoleId => row.role.Some?
    case TargetMembershipId => row.target.Some?
    case SubjectDigest => row.digest.Some?
    case SubjectKeyId => row.keyId.Some?
    case AffectedCount => row.affected.Some?
  }

  /** value IN (list): the list is read as SQL reads it. */
  function Within(value: Option<string>, list: string): Truth {
    match (value, ReadList(list))
    case (Some(v), Some(vs)) => Of(v in vs)
    case _ => Unknown
  }

  /** value = literal: the text must read as a single literal. */
  function Matches(value: Option<string>, literal: string): Truth {
    match (value, ReadList(literal))
    case (Some(v), Some(vs)) => if |vs| == 1 then Of(v == vs[0]) else Unknown
    case _ => Unknown
  }

  predicate Hex(c: char) {
    '0' <= c <= '9' || 'a' <= c <= 'f'
  }

  /** Five groups of 8, 4, 4, 4 and 12 lower-case hexadecimal digits, of the RFC 9562 variant. */
  predicate IsUuid(s: string) {
    && |s| == 36
    && (forall k | 0 <= k < 36 :: if k == 8 || k == 13 || k == 18 || k == 23 then s[k] == '-' else Hex(s[k]))
    && (s[19] == '8' || s[19] == '9' || s[19] == 'a' || s[19] == 'b')
  }

  predicate IsUuid7(s: string) {
    IsUuid(s) && s[14] == '7'
  }

  predicate HexDigits(s: string) {
    forall c | c in s :: c in "0123456789abcdef"
  }

  lemma GroupDigits(s: string, i: nat, j: nat)
    requires i <= j <= |s|
    ensures HexDigits(s[i..j]) <==> forall k | i <= k < j :: Hex(s[k])
  {
    assert forall c: char :: Hex(c) <==> c in "0123456789abcdef";
    hide Hex;
    if HexDigits(s[i..j]) {
      forall k | i <= k < j
        ensures Hex(s[k])
      {
        assert s[i..j][k - i] == s[k];
      }
    }
  }

  /** Both forms as the patterns of the table read them, group by group. */
  lemma UuidGroups(s: string)
    ensures IsUuid(s) <==>
      && |s| == 36 && HexDigits(s[0..8]) && s[8] == '-' && HexDigits(s[9..13]) && s[13] == '-' && HexDigits(s[14..18])
      && s[18] == '-' && s[19] in "89ab" && HexDigits(s[20..23]) && s[23] == '-' && HexDigits(s[24..36])
    ensures IsUuid7(s) <==> IsUuid(s) && s[14..15] == "7"
  {
    if |s| == 36 {
      GroupDigits(s, 0, 8);
      GroupDigits(s, 9, 13);
      GroupDigits(s, 14, 18);
      GroupDigits(s, 20, 23);
      GroupDigits(s, 24, 36);
      assert s[19] in "89ab" ==> Hex(s[19]);
    }
    hide HexDigits, Hex;
  }

  function Eval(row: Row, c: Check): Truth {
    match c
    case IsNull(column) => Of(!Present(row, column))
    case IsNotNull(column) => Of(Present(row, column))
    case In(text, list) => Within(TextOf(row, text), list)
    case NotIn(text, list) => Negated(Within(TextOf(row, text), list))
    case Equal(text, literal) => Matches(TextOf(row, text), literal)
    case Differs(text, literal) => Negated(Matches(TextOf(row, text), literal))
    case IdIsUuid7 => Of(IsUuid7(row.id))
    case CorrelationIsUuid => Of(IsUuid(row.correlation))
    case OctetLengthIs(n) => if row.digest == None then Unknown else Of(|row.digest.value| == n)
    case KeyIdBetween(low, high) => if row.keyId == None then Unknown else Of(low <= row.keyId.value <= high)
    case CountAtLeast(low) => if row.affected == None then Unknown else Of(low <= row.affected.value)
    case And(l, r) => Conj(Eval(row, l), Eval(row, r))
    case Or(l, r) => Disj(Eval(row, l), Eval(row, r))
    case Equals(l, r) => Same(Eval(row, l), Eval(row, r))
  }

  function AnyOf(checks: seq<Check>): Check
    requires checks != []
  {
    if |checks| == 1 then checks[0] else Or(AnyOf(checks[..|checks| - 1]), checks[|checks| - 1])
  }

  function AllOf(checks: seq<Check>): Check
    requires checks != []
  {
    if |checks| == 1 then checks[0] else And(AllOf(checks[..|checks| - 1]), checks[|checks| - 1])
  }

  lemma {:induction false} AnyOfDecided(row: Row, checks: seq<Check>)
    requires checks != [] && forall c | c in checks :: Eval(row, c) != Unknown
    ensures Eval(row, AnyOf(checks)) == Of(exists c :: c in checks && Eval(row, c) == True)
  {
    hide Within, Matches, Present, TextOf, IsUuid;
    var n := |checks| - 1;
    assert checks[n] in checks;
    assert checks == checks[..n] + [checks[n]];
    if n > 0 {
      AnyOfDecided(row, checks[..n]);
    }
  }

  lemma {:induction false} AnyOfNotFalse(row: Row, checks: seq<Check>, c: Check)
    requires c in checks && Eval(row, c) != False
    ensures Eval(row, AnyOf(checks)) != False
  {
    hide Within, Matches, Present, TextOf, IsUuid;
    var n := |checks| - 1;
    assert checks == checks[..n] + [checks[n]];
    if c != checks[n] {
      AnyOfNotFalse(row, checks[..n], c);
    }
  }

  lemma {:induction false} AllOfTrue(row: Row, checks: seq<Check>)
    requires checks != []
    ensures Eval(row, AllOf(checks)) == True <==> forall c | c in checks :: Eval(row, c) == True
  {
    hide Within, Matches, Present, TextOf, IsUuid;
    var n := |checks| - 1;
    assert checks[n] in checks;
    assert checks == checks[..n] + [checks[n]];
    if n > 0 {
      AllOfTrue(row, checks[..n]);
    }
  }

  // ---- the event contract generator ------------------------------------------------------------------------------

  /** A policy: its one result, and the reasons a frozenset allows, in whatever order it yields them. */
  datatype Policy = Policy(result: string, allowed: seq<Option<string>>)

  type Policies = map<string, Policy>

  predicate Plain(v: string) {
    '\'' !in v
  }

  /** The named reasons, leaving None out. */
  function Named(allowed: seq<Option<string>>): seq<string> {
    if allowed == [] then []
    else (match allowed[0] case Some(v) => [v] case None => []) + Named(allowed[1..])
  }

  /** A name interpolated between quotes as it is. */
  function Quoted(name: string): string {
    "'" + name + "'"
  }

  function ReasonCheck(allowed: seq<Option<string>>): Check {
    var reasons := Values(Named(allowed));
    if reasons != "" then Or(IsNull(TextColumn(ReasonCode)), In(ReasonCode, reasons))
    else IsNull(TextColumn(ReasonCode))
  }

  function EventCheck(name: string, p: Policy): Check {
    And(And(Equal(EventType, Quoted(name)), Equal(Result, Quoted(p.result))), ReasonCheck(p.allowed))
  }

  function EventChecks(policies: Policies, order: seq<string>): seq<Check>
    requires forall k | k in order :: k in policies
  {
    seq(|order|, i requires 0 <= i < |order| => EventCheck(order[i], policies[order[i]]))
  }

  /** The generator's loop over the policy table. */
  method BuildEventChecks(policies: Policies, order: seq<string>) returns (checks: seq<Check>)
    requires forall k | k in order :: k in policies
    ensures checks == EventChecks(policies, order)
  {
    checks := [];
    for i := 0 to |order|
      invariant checks == EventChecks(policies, order)[..i]
    {
      var policy := policies[order[i]];
      var reasons := Values(Named(policy.allowed));
      var reasonCheck := IsNull(TextColumn(ReasonCode));
      if reasons != "" {
        reasonCheck := Or(IsNull(TextColumn(ReasonCode)), In(ReasonCode, reasons));
      }
      checks := checks
        + [And(And(Equal(EventType, Quoted(order[i])), Equal(Result, Quoted(policy.result))), reasonCheck)];
      assert checks[i] == EventChecks(policies, order)[i];
    }
  }

  /** An order in which a table's items come: every key, and nothing else. */
  predicate Table(policies: Policies, order: seq<string>) {
    && order != []
    && (forall k | k in order :: k in policies)
    && (forall k | k in policies :: k in order)
  }

  /** No name and no result holds a quote. */
  predicate QuoteFree(policies: Policies) {
    forall k | k in policies :: Plain(k) && Plain(policies[k].result)
  }

  predicate AllowsAbsent(policies: Policies) {
    forall k | k in policies :: None in policies[k].allowed
  }

  function EventContract(policies: Policies, order: seq<string>): Check
    requires Table(policies, order)
  {
    AnyOf(EventChecks(policies, order))
  }

  /** The validator's policy lookup. */
  predicate Accepts(policies: Policies, event: string, result: string, reason: Option<string>) {
    event in policies && policies[event].result == result && reason in policies[event].allowed
  }

  lemma {:induction false} PlainDoubles(v: string)
    requires Plain(v)
    ensures Doubled(v) == v
  {
    if v != [] {
      assert v[0] in v;
      assert Plain(v[1..]);
      PlainDoubles(v[1..]);
      assert v == [v[0]] + v[1..];
    }
  }

  lemma ReadQuoted(name: string)
    requires Plain(name)
    ensures ReadList(Quoted(name)) == Some([name])
  {
    PlainDoubles(name);
    assert Joined([name]) == Quoted(name);
    ReadJoined([name]);
  }

  lemma {:induction false} NamedHolds(allowed: seq<Option<string>>, v: string)
    ensures v in Named(allowed) <==> Some(v) in allowed
  {
    if allowed != [] {
      NamedHolds(allowed[1..], v);
      assert allowed == [allowed[0]] + allowed[1..];
    }
  }

  /** The reason check is decided for every row, and lets NULL through whatever the policy says. */
  lemma ReasonMeaning(row: Row, allowed: seq<Option<string>>)
    ensures Eval(row, ReasonCheck(allowed)) == Of(row.reason == None || row.reason in allowed)
  {
    hide Read, Joined, Sorted;
    ReadValues(Named(allowed));
    if row.reason.Some? {
      NamedHolds(allowed, row.reason.value);
      SortedKeepsMembers(Named(allowed), row.reason.value);
    }
  }

  /** What one policy's check amounts to. */
  predicate CheckPasses(row: Row, name: string, p: Policy) {
    row.eventType == Some(name) && row.result == Some(p.result) && (row.reason == None || row.reason in p.allowed)
  }

  predicate Typed(row: Row) {
    row.eventType.Some? && row.result.Some?
  }

  lemma EventMeaning(row: Row, name: string, p: Policy)
    requires Typed(row) && Plain(name) && Plain(p.result)
    ensures Eval(row, EventCheck(name, p)) == Of(CheckPasses(row, name, p))
  {
    ReasonMeaning(row, p.allowed);
    ReadQuoted(name);
    ReadQuoted(p.result);
    hide ReadList, Quoted, ReasonCheck;
    var event, result := Equal(EventType, Quoted(name)), Equal(Result, Quoted(p.result));
    assert Eval(row, event) == Of(row.eventType == Some(name));
    assert Eval(row, result) == Of(row.result == Some(p.result));
    assert Eval(row, And(event, result)) == Conj(Eval(row, event), Eval(row, result));
  }

  /**
   Without quotes, the generated contract is TRUE or FALSE on every typed row: TRUE iff the row's own policy passes it.
   */
  lemma ContractMeaning(policies: Policies, order: seq<string>, row: Row)
    requires Table(policies, order) && QuoteFree(policies) && Typed(row)
    ensures var event := row.eventType.value;
      Eval(row, EventContract(policies, order)) == Of(event in policies && CheckPasses(row, event, policies[event]))
  {
    var checks := EventChecks(policies, order);
    forall k | k in order
      ensures Eval(row, EventCheck(k, policies[k])) == Of(CheckPasses(row, k, policies[k]))
    {
      EventMeaning(row, k, policies[k]);
    }
    hide Eval, EventCheck, ReasonCheck;
    assert forall i | 0 <= i < |checks| :: checks[i] == EventCheck(order[i], policies[order[i]]) && order[i] in order;
    AnyOfDecided(row, checks);
    var event := row.eventType.value;
    if event in policies {
      var i :| 0 <= i < |order| && order[i] == event;
      assert checks[i] in checks;
    }
  }

  ghost predicate MeansPolicy(policies: Policies, order: seq<string>)
    requires Table(policies, order)
  {
    forall row: Row | Typed(row) ::
      Eval(row, EventContract(policies, order)) ==
        Of(Accepts(policies, row.eventType.value, row.result.value, row.reason))
  }

  const BLANK := Row("", "", None, None, None, None, None, None, None, None, None, None, None, None, None)

  lemma QuoteFreeMeansPolicyIff(policies: Policies, order: seq<string>)
    requires Table(policies, order) && QuoteFree(policies)
    ensures MeansPolicy(policies, order) <==> AllowsAbsent(policies)
  {
    forall row: Row | Typed(row)
      ensures var event := row.eventType.value;
        Eval(row, EventContract(policies, order)) == Of(event in policies && CheckPasses(row, event, policies[event]))
    {
      ContractMeaning(policies, order, row);
    }
    hide Eval, EventContract, Table, QuoteFree;
    if MeansPolicy(policies, order) {
      forall k | k in policies
        ensures None in policies[k].allowed
      {
        var row := BLANK.(eventType := Some(k), result := Some(policies[k].result));
        assert Typed(row) && CheckPasses(row, k, policies[k]);
      }
    }
  }

  /** The value a name's literal stands for, if it reads as one literal. */
  function LiteralOf(name: string): Option<string> {
    match ReadList(Quoted(name))
    case Some(vs) => if |vs| == 1 then Some(vs[0]) else None
    case None => None
  }

  lemma {:induction false} DoubledLength(v: string)
    ensures |v| <= |Doubled(v)| && (|v| == |Doubled(v)| ==> Plain(v))
  {
    if v != [] {
      DoubledLength(v[1..]);
      assert v == [v[0]] + v[1..];
    }
  }

  /**
   A name whose literal stands for v is v with its quotes doubled: v itself without quotes, else a longer name than v.
   */
  lemma LiteralDoubles(name: string)
    ensures LiteralOf(name).Some? ==> var v := LiteralOf(name).value;
      name == Doubled(v) && (Plain(name) <==> Plain(v)) && (Plain(name) ==> v == name)
        && (!Plain(name) ==> |v| < |name|)
  {
    if LiteralOf(name).Some? {
      var v := LiteralOf(name).value;
      assert ReadList(Quoted(name)).value == [v];
      ReadOne(Quoted(name), v);
      assert Quoted(name)[1..] == name + "'";
      assert name == (name + "'")[..|name|] == (Doubled(v) + "'")[..|Doubled(v)|] == Doubled(v);
      DoubledLength(v);
      if Plain(v) {
        PlainDoubles(v);
      } else if Plain(name) {
        ReadQuoted(name);
        assert false;
      }
    }
  }

  /**
   The generated check of a policy does not reject a row that has its literals' values, or any value where a literal
   does not read.
   */
  lemma CheckAdmits(row: Row, name: string, p: Policy)
    requires Typed(row) && row.reason == None
    requires LiteralOf(name).Some? ==> row.eventType == LiteralOf(name)
    requires LiteralOf(p.result).Some? ==> row.result == LiteralOf(p.result)
    ensures Eval(row, EventCheck(name, p)) != False
  {
    ReasonMeaning(row, p.allowed);
    hide ReasonCheck, ReadList, Quoted;
    var event, result := Equal(EventType, Quoted(name)), Equal(Result, Quoted(p.result));
    assert Eval(row, event) != False && Eval(row, result) != False;
    assert Eval(row, And(event, result)) == Conj(Eval(row, event), Eval(row, result));
  }

  /** So, if the contract means the policy check, the validator accepts such a row. */
  lemma AdmittedAccepted(policies: Policies, order: seq<string>, k: string, row: Row)
    requires Table(policies, order) && MeansPolicy(policies, order) && k in policies && Typed(row) && row.reason == None
    requires LiteralOf(k).Some? ==> row.eventType == LiteralOf(k)
    requires LiteralOf(policies[k].result).Some? ==> row.result == LiteralOf(policies[k].result)
    ensures Accepts(policies, row.eventType.value, row.result.value, None)
  {
    CheckAdmits(row, k, policies[k]);
    hide Eval, EventCheck, LiteralOf;
    var i :| 0 <= i < |order| && order[i] == k;
    assert EventChecks(policies, order)[i] == EventCheck(k, policies[k]);
    AnyOfNotFalse(row, EventChecks(policies, order), EventCheck(k, policies[k]));
  }

  /** The shortest name with a quote in it. */
  lemma {:induction false} ShortestQuoted(order: seq<string>) returns (shortest: string)
    requires exists k :: k in order && !Plain(k)
    ensures shortest in order && !Plain(shortest)
    ensures forall k | k in order && !Plain(k) :: |shortest| <= |k|
  {
    hide Plain;
    var n := |order| - 1;
    assert order == order[..n] + [order[n]];
    if exists k :: k in order[..n] && !Plain(k) {
      shortest := ShortestQuoted(order[..n]);
      if !Plain(order[n]) && |order[n]| < |shortest| {
        shortest := order[n];
      }
    } else {
      shortest := order[n];
    }
  }

  /** A name longer than all of a table's. */
  lemma {:induction false} Stranger(order: seq<string>) returns (v: string)
    ensures forall k | k in order :: |k| < |v|
  {
    if order == [] {
      v := "";
    } else {
      var n := |order| - 1;
      assert order == order[..n] + [order[n]];
      var w := Stranger(order[..n]);
      v := w + order[n] + "x";
    }
  }

  /**
   A contract that means the policy check was made from names and results without a quote. A name whose quote ends
   its literal early is read as a comparison that is unknown; as SQL text it would be parsed as something else.
   */
  lemma MeaningNeedsQuoteFree(policies: Policies, order: seq<string>)
    requires Table(policies, order) && MeansPolicy(policies, order)
    ensures QuoteFree(policies)
  {
    hide LiteralOf, Plain, MeansPolicy;
    if exists k :: k in order && !Plain(k) {
      var k := ShortestQuoted(order);
      var stranger := Stranger(order);
      LiteralDoubles(k);
      var result := LiteralOf(policies[k].result);
      var row := BLANK.(eventType := if LiteralOf(k).Some? then LiteralOf(k) else Some(stranger),
                        result := if result.Some? then result else Some(""));
      AdmittedAccepted(policies, order, k, row);
      assert false;
    }
    forall k | k in policies
      ensures Plain(policies[k].result)
    {
      LiteralDoubles(k);
      LiteralDoubles(policies[k].result);
      var result := LiteralOf(policies[k].result);
      var row := BLANK.(eventType := Some(k),
        result := if result.Some? then result else Some(policies[k].result + "x"));
      AdmittedAccepted(policies, order, k, row);
    }
  }

  /**
   For any policy table, the generated contract means the Python policy check on every typed row exactly when every
   policy allows the absent reason and no name or result holds a quote. A policy that demanded a reason would be
   enforced by the validator and not by the SQL; a name with a quote goes into its literal as it is, and where the
   quote ends the literal early the comparison is read as unknown.
   */
  lemma ContractMeansPolicyIff(policies: Policies, order: seq<string>)
    requires Table(policies, order)
    ensures MeansPolicy(policies, order) <==> AllowsAbsent(policies) && QuoteFree(policies)
  {
    hide MeansPolicy, QuoteFree, AllowsAbsent, Table;
    if QuoteFree(policies) {
      QuoteFreeMeansPolicyIff(policies, order);
    } else if MeansPolicy(policies, order) {
      MeaningNeedsQuoteFree(policies, order);
    }
  }

  /** A table of one policy that demands its reason: SQL stores the event without it, the validator refuses it. */
  lemma DemandedReasonIsNotEnforced()
    ensures var policies := map["logout" := Policy("success", [Some("logout")])];
      var row := BLANK.(eventType := Some("logout"), result := Some("success"));
      && Table(policies, ["logout"])
      && Eval(row, EventContract(policies, ["logout"])) == True
      && !Accepts(policies, "logout", "success", None)
  {
    var policies := map["logout" := Policy("success", [Some("logout")])];
    var row := BLANK.(eventType := Some("logout"), result := Some("success"));
    assert Table(policies, ["logout"]) && QuoteFree(policies);
    hide Eval, EventContract;
    ContractMeaning(policies, ["logout"], row);
  }
}

/**
 Lists of SQL character string literals: rendering a collection of strings, and reading the text back by the
 character string literal rule of section 5.3 of ISO/IEC 9075-2.
 */
module SqlLiterals {
  import opened Prelude

  // ---- the order Python sorts strings by ---------------------------------------------------------------------

  predicate AtMost(a: string, b: string) {
    a == [] || (b != [] && (a[0] < b[0] || (a[0] == b[0] && AtMost(a[1..], b[1..]))))
  }

  lemma {:induction false} AtMostTotal(a: string, b: string)
    ensures AtMost(a, b) || AtMost(b, a)
  {
    if a != [] && b != [] && a[0] == b[0] {
      AtMostTotal(a[1..], b[1..]);
    }
  }

  lemma {:induction false} AtMostTransitive(a: string, b: string, c: string)
    requires AtMost(a, b) && AtMost(b, c)
    ensures AtMost(a, c)
  {
    if a != [] && a[0] == b[0] && b[0] == c[0] {
      AtMostTransitive(a[1..], b[1..], c[1..]);
    }
  }

  predicate Ordered(vs: seq<string>) {
    forall i, j | 0 <= i <= j < |vs| :: AtMost(vs[i], vs[j])
  }

  function Insert(v: string, vs: seq<string>): seq<string> {
    if vs == [] then [v]
    else if AtMost(v, vs[0]) then [v] + vs
    else [vs[0]] + Insert(v, vs[1..])
  }

  function Sorted(vs: seq<string>): seq<string> {
    if vs == [] then [] else Insert(vs[0], Sorted(vs[1..]))
  }

  lemma {:induction false} InsertKeeps(v: string, vs: seq<string>)
    ensures multiset(Insert(v, vs)) == multiset(vs) + multiset{v}
  {
    hide AtMost;
    if vs != [] {
      assert vs == [vs[0]] + vs[1..];
      if !AtMost(v, vs[0]) {
        InsertKeeps(v, vs[1..]);
      }
    }
  }

  lemma {:induction false} InsertOrders(v: string, vs: seq<string>)
    requires Ordered(vs)
    ensures Ordered(Insert(v, vs))
  {
    AtMostTotal(v, v);
    hide AtMost;
    if vs == [] {
    } else if AtMost(v, vs[0]) {
      forall j | 0 <= j < |vs|
        ensures AtMost(v, vs[j])
      {
        AtMostTransitive(v, vs[0], vs[j]);
      }
    } else {
      AtMostTotal(v, vs[0]);
      InsertOrders(v, vs[1..]);
      InsertKeeps(v, vs[1..]);
      var rest := Insert(v, vs[1..]);
      forall j | 0 <= j < |rest|
        ensures AtMost(vs[0], rest[j])
      {
        assert rest[j] in multiset(rest);
        assert rest[j] == v || rest[j] in vs[1..];
      }
    }
  }

  /** Sorting orders the strings and keeps each as often as it occurs. */
  lemma {:induction false} SortedOrders(vs: seq<string>)
    ensures Ordered(Sorted(vs)) && multiset(Sorted(vs)) == multiset(vs)
  {
    if vs != [] {
      SortedOrders(vs[1..]);
      InsertOrders(vs[0], Sorted(vs[1..]));
      InsertKeeps(vs[0], Sorted(vs[1..]));
      assert vs == [vs[0]] + vs[1..];
    }
  }

  lemma SortedKeepsMembers(vs: seq<string>, v: string)
    ensures v in Sorted(vs) <==> v in vs
  {
    SortedOrders(vs);
    assert v in Sorted(vs) <==> v in multiset(Sorted(vs));
    assert v in vs <==> v in multiset(vs);
  }

  // ---- rendering -----------------------------------------------------------------------------------------------

  /** value.replace("'", "''") */
  function Doubled(v: string): string {
    if v == [] then []
    else (if v[0] == '\'' then ['\'', '\''] else [v[0]]) + Doubled(v[1..])
  }

  function Literal(v: string): string {
    "'" + Doubled(v) + "'"
  }

  function Joined(vs: seq<string>): string {
    if vs == [] then "" else if |vs| == 1 then Literal(vs[0]) else Literal(vs[0]) + "," + Joined(vs[1..])
  }

  /** The text of a value list: sorted, quoted and separated by commas. */
  function Values(vs: seq<string>): string {
    Joined(Sorted(vs))
  }

  // ---- reading -------------------------------------------------------------------------------------------------

  /** After the opening quote: a doubled quote is one quote, a single quote ends the literal. */
  function Scan(text: string): Option<(string, string)> {
    if text == [] then None
    else if text[0] != '\'' then
      (match Scan(text[1..]) case Some((v, rest)) => Some(([text[0]] + v, rest)) case None => None)
    else if |text| > 1 && text[1] == '\'' then
      (match Scan(text[2..]) case Some((v, rest)) => Some((['\''] + v, rest)) case None => None)
    else Some(([], text[1..]))
  }

  lemma {:induction false} ScanShortens(text: string)
    ensures Scan(text).Some? ==> |Scan(text).value.1| < |text|
  {
    if text == [] {
    } else if text[0] != '\'' {
      ScanShortens(text[1..]);
    } else if |text| > 1 && text[1] == '\'' {
      ScanShortens(text[2..]);
    }
  }

  /** One or more literals separated by commas, to the end of the text. */
  function Read(text: string): Option<seq<string>>
    decreases |text|
  {
    if text == [] || text[0] != '\'' then None
    else
      match Scan(text[1..])
      case None => None
      case Some((v, rest)) =>
        ScanShortens(text[1..]);
        if rest == [] then Some([v])
        else if rest[0] != ',' then None
        else
          match Read(rest[1..])
          case None => None
          case Some(vs) => Some([v] + vs)
  }

  function ReadList(text: string): Option<seq<string>> {
    if text == [] then Some([]) else Read(text)
  }

  // ---- round trip ------------------------------------------------------------------------------------------------

  /** Scanning a doubled value and its closing quote gives the value back, whatever follows but a quote. */
  lemma {:induction false} ScanUndoubles(v: string, rest: string)
    requires rest == [] || rest[0] != '\''
    ensures Scan(Doubled(v) + "'" + rest) == Some((v, rest))
  {
    var text := Doubled(v) + "'" + rest;
    if v == [] {
      assert text == "'" + rest;
      assert text[1..] == rest;
    } else {
      ScanUndoubles(v[1..], rest);
      var head := if v[0] == '\'' then ['\'', '\''] else [v[0]];
      assert text == head + (Doubled(v[1..]) + "'" + rest);
      assert text[|head|..] == Doubled(v[1..]) + "'" + rest;
      assert v == [v[0]] + v[1..];
    }
  }

  /** And the other way: what was scanned is the value doubled, its closing quote, and the rest. */
  lemma {:induction false} ScanDoubled(text: string)
    ensures Scan(text).Some? ==> text == Doubled(Scan(text).value.0) + "'" + Scan(text).value.1
  {
    if text == [] {
    } else if text[0] != '\'' {
      ScanDoubled(text[1..]);
    } else if |text| > 1 && text[1] == '\'' {
      ScanDoubled(text[2..]);
    } else {
      assert text == [] + "'" + text[1..];
    }
  }

  lemma ReadNotEmpty(text: string)
    ensures Read(text).Some? ==> Read(text).value != []
  {
  }

  /** A text that reads as one literal is that literal and nothing more. */
  lemma ReadOne(text: string, v: string)
    requires ReadList(text) == Some([v])
    ensures text[0] == '\'' && text[1..] == Doubled(v) + "'"
  {
    ScanDoubled(text[1..]);
    ScanShortens(text[1..]);
    var rest := Scan(text[1..]).value.1;
    hide Scan, Doubled;
    if rest != [] {
      ReadNotEmpty(rest[1..]);
      assert false;
    }
  }

  /** What follows the first literal of a rendered list. */
  function AfterFirst(vs: seq<string>): string
    requires vs != []
  {
    if |vs| == 1 then "" else "," + Joined(vs[1..])
  }

  lemma JoinedOpens(vs: seq<string>)
    requires vs != []
    ensures Joined(vs) != [] && Joined(vs)[0] == '\''
    ensures Joined(vs)[1..] == Doubled(vs[0]) + "'" + AfterFirst(vs)
  {
    assert Joined(vs) == "'" + (Doubled(vs[0]) + "'" + AfterFirst(vs));
  }

  lemma ReadStep(text: string, v: string, rest: string, vs: seq<string>)
    requires text != [] && text[0] == '\'' && Scan(text[1..]) == Some((v, rest))
    requires if rest == [] then vs == [] else rest[0] == ',' && Read(rest[1..]) == Some(vs)
    ensures Read(text) == Some([v] + vs)
  {
    hide Scan;
    ScanShortens(text[1..]);
    if rest == [] {
      assert [v] + vs == [v];
    }
  }

  lemma {:induction false} ReadJoined(vs: seq<string>)
    requires vs != []
    ensures Read(Joined(vs)) == Some(vs)
    decreases |vs|
  {
    hide Scan, Doubled, Joined, Read;
    JoinedOpens(vs);
    ScanUndoubles(vs[0], AfterFirst(vs));
    if |vs| > 1 {
      assert AfterFirst(vs)[1..] == Joined(vs[1..]);
      ReadJoined(vs[1..]);
    }
    ReadStep(Joined(vs), vs[0], AfterFirst(vs), vs[1..]);
    assert vs == [vs[0]] + vs[1..];
  }

  /** Reading a rendered list gives exactly the sorted strings, quotes and all. */
  lemma ReadValues(vs: seq<string>)
    ensures ReadList(Values(vs)) == Some(Sorted(vs))
    ensures Values(vs) == "" <==> vs == []
  {
    SortedOrders(vs);
    if vs == [] {
    } else {
      assert vs[0] in multiset(vs);
      assert Sorted(vs) != [];
      ReadJoined(Sorted(vs));
    }
  }

  /** Two collections render to the same text only if they hold the same strings equally often. */
  lemma ValuesInjective(vs: seq<string>, ws: seq<string>)
    requires Values(vs) == Values(ws)
    ensures multiset(vs) == multiset(ws)
  {
    ReadValues(vs);
    ReadValues(ws);
    SortedOrders(vs);
    SortedOrders(ws);
  }
}

/** SQL text as DatabaseManager prints it, and a small reference reader for UPDATE statements. */
module SqlText {
  import opened Protocol

  /** A column value that is not a REAL. */
  datatype Value = Text(text: string) | Int(n: int)

  /** One pair of a column map; a map is given as the list of its pairs in iteration order. */
  datatype Entry = Entry(col: string, value: Value)

  // ---------- Printing ----------

  function Digits(n: nat): (s: string)
    ensures s != ""
  {
    if n < 10 then [Digit(n)] else Digits(n / 10) + [Digit(n % 10)]
  }

  function Digit(n: nat): char
    requires n < 10
  {
    '0' + n as char
  }

  function Literal(v: Value): string {
    match v
    case Text(s) => "'" + s + "'"
    case Int(n) => if n < 0 then "-" + Digits(-n) else Digits(n)
  }

  function Item(e: Entry): string {
    e.col + " = " + Literal(e.value)
  }

  function Listed(es: seq<Entry>, sep: string): string {
    if es == [] then ""
    else if |es| == 1 then Item(es[0])
    else Item(es[0]) + sep + Listed(es[1..], sep)
  }

  // ---------- Reading ----------

  predicate NameChar(c: char) {
    '0' <= c <= '9' || 'A' <= c <= 'Z' || 'a' <= c <= 'z' || c == '_'
  }

  predicate DigitChar(c: char) {
    '0' <= c <= '9'
  }

  predicate NotQuote(c: char) {
    c != '\''
  }

  /** The length of the longest prefix whose characters satisfy p. */
  function Run(s: string, p: char -> bool): (n: nat)
    ensures n <= |s|
  {
    if s == "" || !p(s[0]) then 0 else 1 + Run(s[1..], p)
  }

  function Number(s: string): int {
    if s == "" then 0 else 10 * Number(s[..|s| - 1]) + (s[|s| - 1] as int - '0' as int)
  }

  type Got<T> = Option<(T, string)>

  function ReadName(s: string): Got<string> {
    var n := Run(s, NameChar);
    if n == 0 then None else Some((s[..n], s[n..]))
  }

  function ReadNumber(s: string): Got<int> {
    var n := Run(s, DigitChar);
    if n == 0 then None else Some((Number(s[..n]), s[n..]))
  }

  function ReadLiteral(s: string): Got<Value> {
    if s == "" then None
    else if s[0] == '\'' then
      var n := Run(s[1..], NotQuote);
      if n + 1 == |s| then None else Some((Text(s[1..n + 1]), s[n + 2..]))
    else if s[0] == '-' then
      match ReadNumber(s[1..])
      case None => None
      case Some((n, rest)) => Some((Int(-n), rest))
    else
      match ReadNumber(s)
      case None => None
      case Some((n, rest)) => Some((Int(n), rest))
  }

  function ReadItem(s: string): (r: Got<Entry>)
    ensures r.Some? ==> |r.value.1| < |s|
  {
    match ReadName(s)
    case None => None
    case Some((col, rest)) =>
      if !(" = " <= rest) then None
      else match ReadLiteral(rest[3..])
        case None => None
        case Some((v, rest')) => Some((Entry(col, v), rest'))
  }

  function ReadItems(s: string, sep: string): Got<seq<Entry>>
    decreases |s|
  {
    match ReadItem(s)
    case None => None
    case Some((e, rest)) =>
      if !(sep <= rest) then Some(([e], rest))
      else match ReadItems(rest[|sep|..], sep)
        case None => None
        case Some((es, rest')) => Some(([e] + es, rest'))
  }

  /** What an UPDATE says; `all` is AND rather than OR, and shows only from two conditions on. */
  datatype Update = Update(table: string, sets: seq<Entry>, conditions: seq<Entry>, all: Option<bool>)

  function ReadConditions(s: string): Option<(seq<Entry>, Option<bool>)> {
    match ReadItem(s)
    case None => None
    case Some((e, rest)) =>
      if rest == "" then Some(([e], None))
      else
        var all := " AND " <= rest;
        match ReadItems(s, if all then " AND " else " OR ")
        case None => None
        case Some((es, rest')) => if rest' == "" then Some((es, Some(all))) else None
  }

  function ReadUpdate(s: string): Option<Update> {
    if !("UPDATE " <= s) then None
    else match ReadName(s[7..])
      case None => None
      case Some((table, rest)) =>
        if !(" SET " <= rest) then None
        else match ReadItems(rest[5..], ", ")
          case None => None
          case Some((sets, rest')) =>
            if rest' == "" then Some(Update(table, sets, [], None))
            else if !(" WHERE " <= rest') then None
            else match ReadConditions(rest'[7..])
              case None => None
              case Some((conditions, all)) => Some(Update(table, sets, conditions, all))
  }

  // ---------- Reading back what was printed ----------

  ghost predicate IsName(s: string) {
    s != "" && forall i :: 0 <= i < |s| ==> NameChar(s[i])
  }

  ghost predicate Quotable(v: Value) {
    v.Text? ==> forall i :: 0 <= i < |v.text| ==> NotQuote(v.text[i])
  }

  ghost predicate Plain(es: seq<Entry>) {
    forall i :: 0 <= i < |es| ==> IsName(es[i].col) && Quotable(es[i].value)
  }

  /** What follows an item: nothing, or a separator. */
  ghost predicate Stops(t: string) {
    t == "" || t[0] == ' ' || t[0] == ','
  }

  lemma {:induction false} RunOf(a: string, t: string, p: char -> bool)
    requires forall i :: 0 <= i < |a| ==> p(a[i])
    requires t == "" || !p(t[0])
    ensures Run(a + t, p) == |a| && (a + t)[..|a|] == a && (a + t)[|a|..] == t
  {
    if a == "" {
      assert a + t == t;
    } else {
      RunOf(a[1..], t, p);
      assert (a + t)[1..] == a[1..] + t;
    }
  }

  lemma {:induction false} DigitsNumber(n: nat)
    ensures Number(Digits(n)) == n && forall i :: 0 <= i < |Digits(n)| ==> DigitChar(Digits(n)[i])
  {
    if n < 10 {
      assert Digits(n)[..0] == "";
    } else {
      DigitsNumber(n / 10);
      var s := Digits(n);
      assert s[..|s| - 1] == Digits(n / 10) && s[|s| - 1] == Digit(n % 10);
    }
  }

  lemma NumberBack(n: nat, t: string)
    requires Stops(t)
    ensures ReadNumber(Digits(n) + t) == Some((n, t))
  {
    DigitsNumber(n);
    RunOf(Digits(n), t, DigitChar);
  }

  lemma Strip(p: string, t: string)
    ensures p <= p + t && (p + t)[|p|..] == t
  {
  }

  lemma TextBack(text: string, t: string)
    requires Quotable(Text(text))
    ensures ReadLiteral(Literal(Text(text)) + t) == Some((Text(text), t))
  {
    var s, tail := Literal(Text(text)) + t, "'" + t;
    assert s == "'" + (text + tail) && s[1..] == text + tail;
    RunOf(text, tail, NotQuote);
    hide Run;
    assert |s| == |text| + |t| + 2;
    assert s[1..|text| + 1] == text && s[|text| + 2..] == t;
  }

  lemma NegativeBack(n: int, t: string)
    requires Stops(t) && n > 0
    ensures ReadLiteral(Literal(Int(-n)) + t) == Some((Int(-n), t))
  {
    hide Digits, ReadNumber, ReadLiteral, Run, Number;
    NumberBack(n, t);
    assert Literal(Int(-n)) + t == "-" + (Digits(n) + t);
    SignRead(Digits(n) + t, n, t);
  }

  lemma SignRead(s: string, n: int, t: string)
    requires ReadNumber(s) == Some((n, t))
    ensures ReadLiteral("-" + s) == Some((Int(-n), t))
  {
    hide ReadNumber;
    assert ("-" + s)[1..] == s;
  }

  lemma NaturalBack(n: nat, t: string)
    requires Stops(t)
    ensures ReadLiteral(Literal(Int(n)) + t) == Some((Int(n), t))
  {
    NumberBack(n, t);
    DigitsNumber(n);
    var s := Literal(Int(n)) + t;
    hide Digits, ReadNumber;
    assert DigitChar(Digits(n)[0]) && s[0] == Digits(n)[0];
  }

  lemma LiteralBack(v: Value, t: string)
    requires Quotable(v) && Stops(t)
    ensures ReadLiteral(Literal(v) + t) == Some((v, t))
  {
    hide Literal, ReadLiteral;
    match v {
      case Text(text) => TextBack(text, t);
      case Int(n) => if n < 0 { NegativeBack(-n, t); } else { NaturalBack(n, t); }
    }
  }

  lemma ItemBack(e: Entry, t: string)
    requires IsName(e.col) && Quotable(e.value) && Stops(t)
    ensures ReadItem(Item(e) + t) == Some((e, t))
  {
    var tail := " = " + (Literal(e.value) + t);
    assert Item(e) + t == e.col + tail;
    RunOf(e.col, tail, NameChar);
    LiteralBack(e.value, t);
    assert tail[3..] == Literal(e.value) + t;
    hide Literal, ReadLiteral, Run;
  }

  lemma {:induction false} ItemsBack(es: seq<Entry>, sep: string, t: string)
    requires es != [] && Plain(es) && sep != "" && Stops(sep) && Stops(t) && !(sep <= t)
    ensures ReadItems(Listed(es, sep) + t, sep) == Some((es, t))
  {
    hide Item, ReadItem;
    if |es| == 1 {
      ItemBack(es[0], t);
      assert es == [es[0]];
    } else {
      var tail := sep + (Listed(es[1..], sep) + t);
      assert Listed(es, sep) + t == Item(es[0]) + tail;
      ItemBack(es[0], tail);
      assert tail[|sep|..] == Listed(es[1..], sep) + t;
      ItemsBack(es[1..], sep, t);
      assert es == [es[0]] + es[1..];
    }
  }

  function Connective(all: bool): string {
    if all then " AND " else " OR "
  }

  lemma ConnectiveTells(all: bool, t: string)
    ensures " AND " <= Connective(all) + t <==> all
    ensures Connective(all) + t != ""
  {
    var s := Connective(all) + t;
    assert s[1] == if all then 'A' else 'O';
  }

  lemma ConditionsBack(es: seq<Entry>, all: bool)
    requires es != [] && Plain(es)
    ensures ReadConditions(Listed(es, Connective(all))) == Some((es, if |es| == 1 then None else Some(all)))
  {
    if |es| == 1 {
      ItemBack(es[0], "");
      assert Item(es[0]) + "" == Item(es[0]) && es == [es[0]];
      hide Item, ReadItem, ReadItems, Connective;
    } else {
      ManyConditionsBack(es, all);
    }
  }

  lemma ManyConditionsBack(es: seq<Entry>, all: bool)
    requires |es| > 1 && Plain(es)
    ensures ReadConditions(Listed(es, Connective(all))) == Some((es, Some(all)))
  {
    hide Item, ReadItem, ReadItems, Connective, Plain, Stops;
    var s, later := Listed(es, Connective(all)), Listed(es[1..], Connective(all));
    var tail := Connective(all) + later;
    assert s == Item(es[0]) + tail;
    FirstPlain(es);
    ConnectiveStops(all);
    ConnectiveTells(all, later);
    ConnectiveChosen(all);
    ItemBack(es[0], tail);
    ItemsBack(es, Connective(all), "");
    assert s + "" == s;
  }

  lemma FirstPlain(es: seq<Entry>)
    requires es != [] && Plain(es)
    ensures IsName(es[0].col) && Quotable(es[0].value) && Stops("")
  {
  }

  lemma ConnectiveStops(all: bool)
    ensures Connective(all) != "" && Stops(Connective(all)) && forall t :: Stops(Connective(all) + t)
    ensures !(Connective(all) <= "")
  {
  }

  lemma ConnectiveChosen(all: bool)
    ensures Connective(all) == if all then " AND " else " OR "
  {
  }

  /** The statement modifyRows builds, assignments and conditions given as printed. */
  function Statement(table: string, sets: seq<Entry>, conditions: seq<Entry>, all: bool): string {
    "UPDATE " + table + (if sets == [] then " SE" else " SET " + Listed(sets, ", "))
    + (if conditions == [] then "" else " WHERE " + Listed(conditions, Connective(all)))
  }

  lemma WhereBack(table: string, sets: seq<Entry>, conditions: seq<Entry>, all: bool)
    requires sets != [] && Plain(sets) && Plain(conditions)
    ensures var where := if conditions == [] then "" else " WHERE " + Listed(conditions, Connective(all));
            && ReadItems(Listed(sets, ", ") + where, ", ") == Some((sets, where))
            && (conditions != [] ==>
                  (" WHERE " <= where && where != ""
                   && ReadConditions(where[7..]) == Some((conditions, if |conditions| == 1 then None else Some(all)))))
  {
    var where := if conditions == [] then "" else " WHERE " + Listed(conditions, Connective(all));
    ItemsBack(sets, ", ", where);
    hide Listed, ReadItems, ReadConditions, Connective;
    if conditions != [] {
      ConditionsBack(conditions, all);
      Strip(" WHERE ", Listed(conditions, Connective(all)));
    }
  }

  lemma EmptyUnreadable(table: string, where: string)
    requires IsName(table) && (where == "" || where[0] == ' ')
    ensures ReadUpdate("UPDATE " + table + " SE" + where) == None
  {
    var rest := " SE" + where;
    Grouped("UPDATE ", table, " SE", where, "");
    assert where + "" == where && "UPDATE " + table + (" SE" + where) + "" == "UPDATE " + table + " SE" + where;
    Strip("UPDATE ", table + rest);
    RunOf(table, rest, NameChar);
    hide Run, ReadItems, ReadConditions;
    assert |rest| > 3 ==> rest[3] == ' ';
  }

  /** The reader gives back exactly the assignments and conditions, with the right connective and no WHERE when
      there are no conditions; it fails when there is no assignment. */
  lemma StatementReadsBack(table: string, sets: seq<Entry>, conditions: seq<Entry>, all: bool)
    requires IsName(table) && Plain(sets) && Plain(conditions)
    ensures ReadUpdate(Statement(table, sets, conditions, all))
         == if sets == [] then None
            else Some(Update(table, sets, conditions, if |conditions| < 2 then None else Some(all)))
  {
    hide Listed, Run, ReadItems, ReadConditions, Connective, ReadUpdate;
    var where := if conditions == [] then "" else " WHERE " + Listed(conditions, Connective(all));
    if sets == [] {
      EmptyUnreadable(table, where);
    } else {
      SetReadsBack(table, sets, conditions, all);
      Grouped("UPDATE ", table, " SET ", Listed(sets, ", "), where);
    }
  }

  lemma Grouped(a: string, b: string, c: string, d: string, e: string)
    ensures a + b + (c + d) + e == a + (b + (c + (d + e)))
  {
  }

  lemma SetReadsBack(table: string, sets: seq<Entry>, conditions: seq<Entry>, all: bool)
    requires IsName(table) && sets != [] && Plain(sets) && Plain(conditions)
    ensures var where := if conditions == [] then "" else " WHERE " + Listed(conditions, Connective(all));
            ReadUpdate("UPDATE " + (table + (" SET " + (Listed(sets, ", ") + where))))
            == Some(Update(table, sets, conditions, if |conditions| < 2 then None else Some(all)))
  {
    hide Listed, Run, ReadItems, ReadConditions, Connective;
    var where := if conditions == [] then "" else " WHERE " + Listed(conditions, Connective(all));
    var body := Listed(sets, ", ") + where;
    var rest := " SET " + body;
    Strip("UPDATE ", table + rest);
    Strip(" SET ", body);
    RunOf(table, rest, NameChar);
    WhereBack(table, sets, conditions, all);
  }

  /** An item, written out. */
  lemma ItemIs(e: Entry)
    ensures e.value.Text? ==> Item(e) == e.col + " = '" + e.value.text + "'"
    ensures e.value == Int(7) ==> Item(e) == e.col + " = 7"
    ensures e.value == Int(-30) ==> Item(e) == e.col + " = -30"
  {
    NumbersLookLike();
    assert " = '" == " = " + "'" && " = 7" == " = " + "7" && " = -30" == " = " + "-30";
    hide Literal;
  }

  /** Statements with two assignments, and with two conditions or none, written out. */
  lemma StatementIs(table: string, a: Entry, b: Entry, c: Entry, d: Entry, all: bool)
    ensures Statement(table, [a, b], [c, d], all)
         == "UPDATE " + table + (" SET " + (Item(a) + ", " + Item(b)))
            + (" WHERE " + (Item(c) + (if all then " AND " else " OR ") + Item(d)))
    ensures Statement(table, [a, b], [], all) == "UPDATE " + table + (" SET " + (Item(a) + ", " + Item(b))) + ""
  {
    TwoListed(a, b, ", ");
    TwoListed(c, d, Connective(all));
    hide Item, Listed;
  }

  lemma TwoListed(a: Entry, b: Entry, sep: string)
    ensures Listed([a, b], sep) == Item(a) + sep + Item(b)
  {
    assert [a, b][1..] == [b];
    hide Item;
  }

  lemma NumbersLookLike()
    ensures Literal(Int(-30)) == "-30" && Literal(Int(7)) == "7"
  {
    assert Digits(3) == "3" && Digits(30) == "3" + "0";
  }
}

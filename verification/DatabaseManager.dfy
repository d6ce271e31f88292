/** modifyRows' statement building (DatabaseManager.java). */
module DatabaseManager {
  import opened Protocol
  import opened SaltHasher
  import opened SqlText

  const HASH_SUFFIX := "_Hash"

  predicate IsHash(col: string) {
    |col| >= 5 && col[|col| - 5..] == HASH_SUFFIX
  }

  function SaltColumn(col: string): string
    requires IsHash(col)
  {
    col[..|col| - 5] + "_Salt"
  }

  /** Casting a value that is not a string fails for a hash column. */
  predicate CastFails(e: Entry) {
    IsHash(e.col) && !e.value.Text?
  }

  /** A hash column is assigned a salted hash of its text and followed by the salt that reproduces it. */
  ghost predicate Pairs(digest: Digest, e: Entry, hashed: Entry, salted: Entry)
    requires IsHash(e.col) && e.value.Text?
  {
    && hashed.col == e.col && salted.col == SaltColumn(e.col)
    && hashed.value.Text? && salted.value.Text?
    && hashed.value.text == HashWith(digest, e.value.text, salted.value.text)
    && Unhex(hashed.value.text) == Some(digest(salted.value.text + e.value.text))
    && |salted.value.text| == 16 && AllAlphanumeric(salted.value.text) && AllAlphanumeric(hashed.value.text)
  }

  /** sets is what is assigned for vals, column by column in iteration order. */
  ghost predicate Expands(digest: Digest, vals: seq<Entry>, sets: seq<Entry>) {
    if vals == [] then sets == []
    else
      var e := vals[|vals| - 1];
      var front := vals[..|vals| - 1];
      if CastFails(e) then false
      else if IsHash(e.col) then
        && |sets| >= 2 && Pairs(digest, e, sets[|sets| - 2], sets[|sets| - 1])
        && Expands(digest, front, sets[..|sets| - 2])
      else
        && |sets| >= 1 && sets[|sets| - 1] == e && Expands(digest, front, sets[..|sets| - 1])
  }

  /** The items with a separator after each: what the loops grow before the last separator is cut off. */
  function Trailing(es: seq<Entry>, sep: string): string {
    if es == [] then "" else Trailing(es[..|es| - 1], sep) + Item(es[|es| - 1]) + sep
  }

  lemma TrailingSnoc(es: seq<Entry>, e: Entry, sep: string)
    ensures Trailing(es + [e], sep) == Trailing(es, sep) + Item(e) + sep
  {
    assert (es + [e])[..|es|] == es;
  }

  lemma {:induction false} ListedSnoc(es: seq<Entry>, e: Entry, sep: string)
    requires es != []
    ensures Listed(es + [e], sep) == Listed(es, sep) + sep + Item(e)
  {
    hide Item;
    assert es + [e] == [es[0]] + (es[1..] + [e]);
    if |es| > 1 {
      ListedSnoc(es[1..], e, sep);
      var first, later := Item(es[0]), Listed(es[1..], sep);
      Regroup(first + sep, later, sep + Item(e));
      Regroup(later, sep, Item(e));
    } else {
      assert es[1..] + [e] == [e];
    }
  }

  lemma Regroup(a: string, b: string, c: string)
    ensures (a + b) + c == a + (b + c)
  {
  }

  lemma {:induction false} TrailingTrimmed(es: seq<Entry>, sep: string)
    requires es != []
    ensures Trailing(es, sep) == Listed(es, sep) + sep
  {
    var front, e := es[..|es| - 1], es[|es| - 1];
    assert es == front + [e];
    TrailingSnoc(front, e, sep);
    if front == [] {
      OneItem(e, sep);
    } else {
      hide Item, Listed, Trailing;
      ListedSnoc(front, e, sep);
      TrailingTrimmed(front, sep);
    }
  }

  lemma OneItem(e: Entry, sep: string)
    ensures Trailing([], sep) + Item(e) + sep == Listed([e], sep) + sep && [] + [e] == [e]
  {
    hide Item;
    assert "" + Item(e) == Item(e);
  }

  /** A value prints quoted if it is text and bare otherwise. */
  method Printed(v: Value) returns (s: string)
    ensures s == Literal(v)
  {
    match v
    case Text(text) => s := "'" + text + "'";
    case Int(n) => s := if n < 0 then "-" + Digits(-n) else Digits(n);
  }

  /** The loop over colVals; None is the failing cast. */
  method SetClause(digest: Digest, colVals: seq<Entry>, rolls: seq<seq<nat>>)
    returns (newVals: Option<string>, ghost sets: seq<Entry>)
    requires |rolls| == |colVals| && forall i :: 0 <= i < |rolls| ==> Rolls(rolls[i])
    ensures newVals.None? <==> exists i :: 0 <= i < |colVals| && CastFails(colVals[i])
    ensures newVals.Some? ==> Expands(digest, colVals, sets) && newVals.value == " SET " + Trailing(sets, ", ")
  {
    hide Expands, Trailing, CastFails, Pairs;
    var text := " SET ";
    sets := [];
    NothingYet(digest, ", ");
    for i := 0 to |colVals|
      invariant forall j :: 0 <= j < i ==> !CastFails(colVals[j])
      invariant Expands(digest, colVals[..i], sets) && text == " SET " + Trailing(sets, ", ")
    {
      var e := colVals[i];
      if CastFails(e) { return None, []; }
      assert colVals[..i + 1] == colVals[..i] + [e];
      var added: seq<Entry>;
      text, added := Assign(digest, e, rolls[i], text, sets);
      ExpandsSnoc(digest, colVals[..i], e, sets, added);
      sets := sets + added;
    }
    assert colVals[..|colVals|] == colVals;
    newVals := Some(text);
  }

  lemma ExpandsSnoc(digest: Digest, vals: seq<Entry>, e: Entry, sets: seq<Entry>, added: seq<Entry>)
    requires Expands(digest, vals, sets) && !CastFails(e)
    requires if IsHash(e.col) then |added| == 2 && Pairs(digest, e, added[0], added[1]) else added == [e]
    ensures Expands(digest, vals + [e], sets + added)
  {
    assert (vals + [e])[..|vals|] == vals;
    var all := sets + added;
    assert all[..|all| - |added|] == sets;
    assert all[|all| - 1] == added[|added| - 1];
    if |added| == 2 { assert all[|all| - 2] == added[0]; }
    hide Pairs, IsHash;
  }

  lemma NothingYet(digest: Digest, sep: string)
    ensures Expands(digest, [], []) && Trailing([], sep) == ""
  {
  }

  /** One pass of the loop over colVals. */
  method Assign(digest: Digest, e: Entry, rolls: seq<nat>, text: string, ghost sets: seq<Entry>)
    returns (newVals: string, added: seq<Entry>)
    requires !CastFails(e) && Rolls(rolls) && text == " SET " + Trailing(sets, ", ")
    ensures newVals == " SET " + Trailing(sets + added, ", ")
    ensures if IsHash(e.col) then |added| == 2 && Pairs(digest, e, added[0], added[1]) else added == [e]
  {
    hide Item, Trailing, IsHash, Pairs;
    if IsHash(e.col) {
      var hash, salt := Hash(digest, e.value.text, rolls);
      var hashed, salted := Entry(e.col, Text(hash)), Entry(SaltColumn(e.col), Text(salt));
      PairMade(digest, e, hashed, salted);
      ItemAppended(" SET ", sets, hashed);
      ItemAppended(" SET ", sets + [hashed], salted);
      newVals := text + (Item(hashed) + ", ") + (Item(salted) + ", ");
      added := [hashed, salted];
      assert sets + added == sets + [hashed] + [salted];
    } else {
      ItemAppended(" SET ", sets, e);
      newVals := text + (Item(e) + ", ");
      added := [e];
    }
  }

  lemma PairMade(digest: Digest, e: Entry, hashed: Entry, salted: Entry)
    requires IsHash(e.col) && e.value.Text? && hashed.value.Text? && salted.value.Text?
    requires hashed.col == e.col && salted.col == SaltColumn(e.col)
    requires hashed.value.text == HashWith(digest, e.value.text, salted.value.text)
    requires Unhex(hashed.value.text) == Some(digest(salted.value.text + e.value.text))
    requires |salted.value.text| == 16 && AllAlphanumeric(salted.value.text) && AllAlphanumeric(hashed.value.text)
    ensures Pairs(digest, e, hashed, salted)
  {
  }

  lemma ItemAppended(start: string, es: seq<Entry>, e: Entry)
    ensures start + Trailing(es, ", ") + (Item(e) + ", ") == start + Trailing(es + [e], ", ")
  {
    TrailingSnoc(es, e, ", ");
    hide Trailing, Item;
    Regroup(start, Trailing(es, ", "), Item(e) + ", ");
    Regroup(Trailing(es, ", "), Item(e), ", ");
  }

  method WhereClause(conditions: seq<Entry>, all: bool) returns (conditionVals: string)
    ensures conditionVals == " WHERE " + Trailing(conditions, Connective(all))
  {
    hide Literal, Trailing;
    conditionVals := " WHERE ";
    assert Trailing([], Connective(all)) == "" by { NothingYet((t: string) => [], Connective(all)); }
    for i := 0 to |conditions|
      invariant conditionVals == " WHERE " + Trailing(conditions[..i], Connective(all))
    {
      var e := conditions[i];
      assert conditions[..i + 1] == conditions[..i] + [e];
      TrailingSnoc(conditions[..i], e, Connective(all));
      var shown := Printed(e.value);
      conditionVals := conditionVals + (e.col + " = " + shown);
      if all {
        conditionVals := conditionVals + " AND ";
      } else {
        conditionVals := conditionVals + " OR ";
      }
    }
    assert conditions[..|conditions|] == conditions;
  }

  /** None is the ClassCastException of a hash column whose value is no string. Otherwise the statement is that
      of the expanded assignments and the conditions. */
  method ModifyRows(digest: Digest, table: string, colVals: seq<Entry>, conditions: seq<Entry>, all: bool,
                    rolls: seq<seq<nat>>)
    returns (statement: Option<string>, ghost sets: seq<Entry>)
    requires |rolls| == |colVals| && forall i :: 0 <= i < |rolls| ==> Rolls(rolls[i])
    ensures statement.None? <==> exists i :: 0 <= i < |colVals| && CastFails(colVals[i])
    ensures statement.Some?
        ==> Expands(digest, colVals, sets) && statement.value == Statement(table, sets, conditions, all)
    ensures statement.Some? ==> forall i :: 0 <= i < |colVals| ==> Assigned(digest, colVals[i], sets)
  {
    hide Expands, Trailing, Listed, CastFails, Assigned;
    var sql := "UPDATE " + table;
    var newVals;
    newVals, sets := SetClause(digest, colVals, rolls);
    if newVals.None? { return None, []; }
    sql := sql + newVals.value[..|newVals.value| - 2];
    SetTrimmed(sets);
    var conditionVals := WhereClause(conditions, all);
    WhereTrimmed(conditions, all);
    if |conditionVals| > 7 {
      if all {
        sql := sql + conditionVals[..|conditionVals| - 5];
      } else {
        sql := sql + conditionVals[..|conditionVals| - 4];
      }
    }
    statement := Some(sql);
    EachAssigned(digest, colVals, sets);
  }

  lemma SetTrimmed(sets: seq<Entry>)
    ensures var text := " SET " + Trailing(sets, ", ");
            text[..|text| - 2] == if sets == [] then " SE" else " SET " + Listed(sets, ", ")
  {
    if sets != [] {
      TrailingTrimmed(sets, ", ");
      hide Trailing, Listed;
      Trimmed(" SET ", Listed(sets, ", "), ", ");
    }
  }

  lemma Trimmed(a: string, b: string, c: string)
    ensures (a + (b + c))[..|a + (b + c)| - |c|] == a + b
  {
    Regroup(a, b, c);
  }

  lemma WhereTrimmed(conditions: seq<Entry>, all: bool)
    ensures var text := " WHERE " + Trailing(conditions, Connective(all));
            && |Connective(all)| == (if all then 5 else 4)
            && (|text| > 7 <==> conditions != [])
            && (conditions != [] ==>
                  text[..|text| - |Connective(all)|] == " WHERE " + Listed(conditions, Connective(all)))
  {
    if conditions != [] {
      TrailingTrimmed(conditions, Connective(all));
      hide Trailing, Listed;
      Trimmed(" WHERE ", Listed(conditions, Connective(all)), Connective(all));
    }
  }

  // ---------- What is assigned ----------

  /** The suffixes, written out. */
  lemma SuffixesAre(col: string)
    ensures IsHash(col) <==> exists x: string :: col == x + "_Hash"
    ensures forall x: string :: col == x + "_Hash" ==> SaltColumn(col) == x + "_Salt"
  {
    if IsHash(col) { assert col == col[..|col| - 5] + "_Hash"; }
    forall x: string | col == x + "_Hash" ensures IsHash(col) && SaltColumn(col) == x + "_Salt" {
      assert col[|col| - 5..] == "_Hash" && col[..|col| - 5] == x;
    }
  }

  /** From j on, a column given is assigned: a plain one its value, X_Hash the hash of its text under a salt of
      sixteen letters and digits, and right behind it X_Salt that salt. */
  ghost predicate AssignedFrom(digest: Digest, e: Entry, sets: seq<Entry>, j: nat) {
    && j < |sets| && sets[j].col == e.col
    && (!IsHash(e.col) ==> sets[j].value == e.value)
    && (IsHash(e.col) ==>
          && e.value.Text? && j + 1 < |sets| && sets[j].value.Text? && sets[j + 1].value.Text?
          && sets[j + 1].col == SaltColumn(e.col)
          && |sets[j + 1].value.text| == 16 && AllAlphanumeric(sets[j + 1].value.text)
          && Unhex(sets[j].value.text) == Some(digest(sets[j + 1].value.text + e.value.text)))
  }

  /** Every column given is assigned. */
  lemma {:induction false} AllAssigned(digest: Digest, vals: seq<Entry>, sets: seq<Entry>, i: nat) returns (j: nat)
    requires Expands(digest, vals, sets) && i < |vals|
    ensures AssignedFrom(digest, vals[i], sets, j)
  {
    hide AssignedFrom, Pairs, IsHash;
    var last := |vals| - 1;
    if i == last {
      j := LastAssigned(digest, vals, sets);
    } else {
      var added := if IsHash(vals[last].col) then 2 else 1;
      j := AllAssigned(digest, vals[..last], sets[..|sets| - added], i);
      AssignedMore(digest, vals[i], sets, |sets| - added, j);
    }
  }

  ghost predicate Assigned(digest: Digest, e: Entry, sets: seq<Entry>) {
    exists j: nat :: AssignedFrom(digest, e, sets, j)
  }

  lemma EachAssigned(digest: Digest, vals: seq<Entry>, sets: seq<Entry>)
    requires Expands(digest, vals, sets)
    ensures forall i :: 0 <= i < |vals| ==> Assigned(digest, vals[i], sets)
  {
    forall i | 0 <= i < |vals| ensures Assigned(digest, vals[i], sets) {
      var j := AllAssigned(digest, vals, sets, i);
    }
    hide Assigned, AssignedFrom, Expands;
  }

  lemma LastAssigned(digest: Digest, vals: seq<Entry>, sets: seq<Entry>) returns (j: nat)
    requires Expands(digest, vals, sets) && vals != []
    ensures AssignedFrom(digest, vals[|vals| - 1], sets, j)
  {
    hide IsHash, HashWith, Unhex, AllAlphanumeric;
    j := |sets| - if IsHash(vals[|vals| - 1].col) then 2 else 1;
  }

  lemma AssignedMore(digest: Digest, e: Entry, sets: seq<Entry>, n: nat, j: nat)
    requires n <= |sets| && AssignedFrom(digest, e, sets[..n], j)
    ensures AssignedFrom(digest, e, sets, j)
  {
  }

  // ---------- The columns assigned ----------

  ghost predicate DistinctColumns(es: seq<Entry>) {
    forall i, j :: 0 <= i < j < |es| ==> es[i].col != es[j].col
  }

  ghost predicate HasColumn(es: seq<Entry>, col: string) {
    exists i :: 0 <= i < |es| && es[i].col == col
  }

  /** col is the salt column of one of the hash columns. */
  ghost predicate SaltOf(es: seq<Entry>, col: string) {
    exists i :: 0 <= i < |es| && IsHash(es[i].col) && SaltColumn(es[i].col) == col
  }

  /** A hash column is given together with its own salt column. */
  ghost predicate SaltGiven(es: seq<Entry>) {
    exists i :: 0 <= i < |es| && SaltOf(es, es[i].col)
  }

  lemma SaltColumnsDiffer(a: string, b: string)
    requires IsHash(a)
    ensures !IsHash(SaltColumn(a))
    ensures IsHash(b) && SaltColumn(a) == SaltColumn(b) ==> a == b
  {
    var salt := SaltColumn(a);
    assert salt[|salt| - 5..] == "_Salt";
    assert "_Salt"[1] != HASH_SUFFIX[1];
    assert a == a[..|a| - 5] + HASH_SUFFIX && salt[..|salt| - 5] == a[..|a| - 5];
    if IsHash(b) {
      assert b == b[..|b| - 5] + HASH_SUFFIX && SaltColumn(b)[..|b| - 5] == b[..|b| - 5];
    }
  }

  lemma LastOf(es: seq<Entry>, e: Entry, col: string)
    ensures HasColumn(es + [e], col) <==> HasColumn(es, col) || e.col == col
    ensures SaltOf(es + [e], col) <==> SaltOf(es, col) || (IsHash(e.col) && SaltColumn(e.col) == col)
    ensures DistinctColumns(es + [e]) <==> DistinctColumns(es) && !HasColumn(es, e.col)
  {
    hide IsHash, SaltColumn;
    var all := es + [e];
    assert all[|es|] == e && forall i :: 0 <= i < |es| ==> all[i] == es[i];
  }

  /** The columns assigned are those given and the salt columns of the hash columns among them. */
  lemma {:induction false} ColumnsAssigned(digest: Digest, vals: seq<Entry>, sets: seq<Entry>, col: string)
    requires Expands(digest, vals, sets)
    ensures HasColumn(sets, col) <==> HasColumn(vals, col) || SaltOf(vals, col)
  {
    if vals != [] {
      var front, e := vals[..|vals| - 1], vals[|vals| - 1];
      var before := AssignedBefore(digest, vals, sets);
      ColumnsAssigned(digest, front, before, col);
      LastOf(front, e, col);
      LastOf(before, sets[|before|], col);
      if IsHash(e.col) { LastOf(before + [sets[|before|]], sets[|before| + 1], col); }
      hide IsHash, SaltColumn, Expands, HasColumn, SaltOf, DistinctColumns;
    }
  }

  lemma AssignedBefore(digest: Digest, vals: seq<Entry>, sets: seq<Entry>) returns (before: seq<Entry>)
    requires vals != [] && Expands(digest, vals, sets)
    ensures vals == vals[..|vals| - 1] + [vals[|vals| - 1]] && Expands(digest, vals[..|vals| - 1], before)
    ensures var e := vals[|vals| - 1];
            if IsHash(e.col) then
              && |sets| == |before| + 2 && sets == before + [sets[|before|]] + [sets[|before| + 1]]
              && sets[|before|].col == e.col && sets[|before| + 1].col == SaltColumn(e.col)
            else |sets| == |before| + 1 && sets == before + [sets[|before|]] && sets[|before|].col == e.col
  {
    before := sets[..|sets| - if IsHash(vals[|vals| - 1].col) then 2 else 1];
  }

  /** For the keys of a map, no column is assigned twice exactly when no hash column comes with its own salt
      column. */
  lemma {:induction false} ColumnsDistinctIff(digest: Digest, vals: seq<Entry>, sets: seq<Entry>)
    requires Expands(digest, vals, sets) && DistinctColumns(vals)
    ensures DistinctColumns(sets) <==> !SaltGiven(vals)
  {
    if vals != [] {
      var front, e := vals[..|vals| - 1], vals[|vals| - 1];
      var before := AssignedBefore(digest, vals, sets);
      LastOf(front, e, e.col);
      ColumnsDistinctIff(digest, front, before);
      ColumnsAssigned(digest, front, before, e.col);
      LastOf(before, sets[|before|], e.col);
      if IsHash(e.col) {
        var salt := SaltColumn(e.col);
        ColumnsAssigned(digest, front, before, salt);
        LastOf(before, sets[|before|], salt);
        LastOf(before + [sets[|before|]], sets[|before| + 1], salt);
        SaltNotGivenTwice(front, e);
        SaltColumnsDiffer(e.col, e.col);
      }
      GivenSnoc(front, e);
      hide IsHash, SaltColumn, Expands, HasColumn, SaltOf, DistinctColumns, SaltGiven;
    }
  }

  lemma SaltNotGivenTwice(es: seq<Entry>, e: Entry)
    requires IsHash(e.col) && !HasColumn(es, e.col)
    ensures !SaltOf(es, SaltColumn(e.col)) && SaltColumn(e.col) != e.col
  {
    SaltColumnsDiffer(e.col, e.col);
    forall i | 0 <= i < |es| && IsHash(es[i].col) ensures SaltColumn(es[i].col) != SaltColumn(e.col) {
      SaltColumnsDiffer(e.col, es[i].col);
    }
    hide IsHash, SaltColumn;
  }

  lemma GivenSnoc(es: seq<Entry>, e: Entry)
    ensures SaltGiven(es + [e]) <==> SaltGiven(es) || SaltOf(es, e.col)
                                     || (IsHash(e.col) && HasColumn(es, SaltColumn(e.col)))
  {
    var all := es + [e];
    assert all[|es|] == e && forall i :: 0 <= i < |es| ==> all[i] == es[i];
    forall i | 0 <= i < |all|
      ensures SaltOf(all, all[i].col) <==> SaltOf(es, all[i].col) || (IsHash(e.col) && SaltColumn(e.col) == all[i].col)
    {
      LastOf(es, e, all[i].col);
    }
    if IsHash(e.col) { SaltColumnsDiffer(e.col, e.col); }
    hide IsHash, SaltColumn, SaltOf;
  }

  // ---------- Reading it back ----------

  lemma {:induction false} ExpandedIsPlain(digest: Digest, vals: seq<Entry>, sets: seq<Entry>)
    requires Expands(digest, vals, sets) && Plain(vals)
    ensures Plain(sets) && (sets == [] <==> vals == [])
  {
    if vals != [] {
      var e := vals[|vals| - 1];
      if IsHash(e.col) {
        var front := sets[..|sets| - 2];
        ExpandedIsPlain(digest, vals[..|vals| - 1], front);
        PairIsPlain(digest, e, sets[|sets| - 2], sets[|sets| - 1]);
        assert forall i :: 0 <= i < |sets| - 2 ==> sets[i] == front[i];
      } else {
        var front := sets[..|sets| - 1];
        ExpandedIsPlain(digest, vals[..|vals| - 1], front);
        assert forall i :: 0 <= i < |sets| - 1 ==> sets[i] == front[i];
      }
    }
  }

  lemma PairIsPlain(digest: Digest, e: Entry, hashed: Entry, salted: Entry)
    requires IsHash(e.col) && e.value.Text? && Pairs(digest, e, hashed, salted) && IsName(e.col)
    ensures IsName(hashed.col) && Quotable(hashed.value) && IsName(salted.col) && Quotable(salted.value)
  {
    var c := salted.col;
    forall i | 0 <= i < |c| ensures NameChar(c[i]) {
      if i < |e.col| - 5 { assert c[i] == e.col[i]; }
    }
  }

  /** For identifiers and quote-free text, in any iteration order, the statement modifyRows prints is read back
      as exactly the expanded assignments and the conditions if there is an assignment, and not at all if there
      is none. */
  lemma ModifyRowsReadsBack(digest: Digest, table: string, colVals: seq<Entry>, sets: seq<Entry>,
                            conditions: seq<Entry>, all: bool)
    requires Expands(digest, colVals, sets)
    requires IsName(table) && Plain(colVals) && Plain(conditions)
    ensures ReadUpdate(Statement(table, sets, conditions, all))
         == if colVals == [] then None
            else Some(Update(table, sets, conditions, if |conditions| < 2 then None else Some(all)))
  {
    ExpandedIsPlain(digest, colVals, sets);
    StatementReadsBack(table, sets, conditions, all);
  }
}

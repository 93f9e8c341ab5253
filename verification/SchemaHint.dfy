/**
  The schema hint added to tool descriptions (src/schema-hint-manager.ts): every table with its columns if
  that fits into 800 characters, else fewer columns per table, else table names cut off.
*/
module SchemaHint {
  import opened Placeholders

  const MAX_HINT_LENGTH := 800
  const MAX_COLS_PER_TABLE := 12
  const MAX_TABLES := 20
  const MIN_COLS := 4

  datatype Table = Table(name: string, columns: seq<string>)

  /** A connection's schema: its tables in the order `localeCompare` gives their names, and the names in the
      order of their code units. */
  datatype Schema = Schema(tables: seq<Table>, names: seq<string>)

  /** `schemasByConnection`, in insertion order. */
  type Schemas = seq<(string, Schema)>

  // ---------------------------------------------------------------------
  // The text
  // ---------------------------------------------------------------------

  function Join(parts: seq<string>, separator: string): string {
    if parts == [] then ""
    else if |parts| == 1 then parts[0]
    else Join(parts[..|parts| - 1], separator) + separator + parts[|parts| - 1]
  }

  function First<T>(s: seq<T>, n: nat): seq<T> {
    if |s| <= n then s else s[..n]
  }

  /** A table with at most cap of its columns. */
  function TableText(t: Table, cap: nat): string {
    t.name + " (" + Join(First(t.columns, cap), ", ") + (if |t.columns| > cap then ", ..." else "") + ")"
  }

  function TableTexts(tables: seq<Table>, cap: nat): seq<string> {
    if tables == [] then [] else [TableText(tables[0], cap)] + TableTexts(tables[1..], cap)
  }

  /** `formatTables`, for any cap. */
  function TablesText(tables: seq<Table>, cap: nat): string {
    Join(TableTexts(First(tables, MAX_TABLES), cap)
         + (if |tables| > MAX_TABLES then ["+" + Decimal(|tables| - MAX_TABLES) + " more tables"] else []), ", ")
  }

  function NamesText(names: seq<string>): string {
    Join(First(names, MAX_TABLES), ", ")
    + if |names| > MAX_TABLES then " (+" + Decimal(|names| - MAX_TABLES) + " more)" else ""
  }

  function Label(schemas: Schemas, i: nat): string
    requires i < |schemas|
  {
    if |schemas| > 1 then schemas[i].0 + ": " else ""
  }

  /** The hint that shows cap columns of each table. */
  function Hint(schemas: Schemas, cap: nat): string {
    "Available tables: " +
      Join(seq(|schemas|, i requires 0 <= i < |schemas| => Label(schemas, i) + TablesText(schemas[i].1.tables, cap)),
      " | ")
  }

  function NamesHint(schemas: Schemas): string {
    "Available tables: " +
      Join(seq(|schemas|, i requires 0 <= i < |schemas| => Label(schemas, i) + NamesText(schemas[i].1.names)),
      " | ")
  }

  predicate Fits(schemas: Schemas, cap: nat) {
    |Hint(schemas, cap)| <= MAX_HINT_LENGTH
  }

  // ---------------------------------------------------------------------
  // Choosing it
  // ---------------------------------------------------------------------

  /** What the hint must be: nothing for no schemas; the hint with the largest cap from 12 down to 4 that
      fits; or, when none does, the start of the list of names. */
  predicate IsHint(schemas: Schemas, hint: string) {
    if schemas == [] then hint == ""
    else if exists cap :: MIN_COLS <= cap <= MAX_COLS_PER_TABLE && Fits(schemas, cap) then
      exists cap :: MIN_COLS <= cap <= MAX_COLS_PER_TABLE && Fits(schemas, cap) && hint == Hint(schemas, cap)
        && forall wider :: cap < wider <= MAX_COLS_PER_TABLE ==> !Fits(schemas, wider)
    else hint == First(NamesHint(schemas), MAX_HINT_LENGTH - 3) + "..."
  }

  method TruncateHint(schemas: Schemas) returns (hint: string)
    requires schemas != [] && !Fits(schemas, MAX_COLS_PER_TABLE)
    ensures IsHint(schemas, hint)
  {
    hide Hint, NamesHint;
    var maxCols := MAX_COLS_PER_TABLE - 1;
    while maxCols >= MIN_COLS
      invariant MIN_COLS - 1 <= maxCols < MAX_COLS_PER_TABLE
      invariant forall cap :: maxCols < cap <= MAX_COLS_PER_TABLE ==> !Fits(schemas, cap)
    {
      var candidate := Hint(schemas, maxCols);
      if |candidate| <= MAX_HINT_LENGTH {
        assert Fits(schemas, maxCols);
        return candidate;
      }
      maxCols := maxCols - 1;
    }
    return First(NamesHint(schemas), MAX_HINT_LENGTH - 3) + "...";
  }

  method BuildHint(schemas: Schemas) returns (hint: string)
    ensures IsHint(schemas, hint)
  {
    hide Hint, NamesHint;
    if |schemas| == 0 {
      return "";
    }
    var joined := Hint(schemas, MAX_COLS_PER_TABLE);
    if |joined| <= MAX_HINT_LENGTH {
      assert Fits(schemas, MAX_COLS_PER_TABLE);
      return joined;
    }
    hint := TruncateHint(schemas);
  }

  /** There is one hint for each set of schemas, and it is never longer than 800 characters. */
  lemma HintIsShort(schemas: Schemas, hint: string)
    requires IsHint(schemas, hint)
    ensures |hint| <= 800
    ensures forall other :: IsHint(schemas, other) ==> other == hint
  {
    hide Hint, NamesHint;
    forall other | IsHint(schemas, other) ensures other == hint {
      if schemas != [] && exists cap :: MIN_COLS <= cap <= MAX_COLS_PER_TABLE && Fits(schemas, cap) {
        var a :| MIN_COLS <= a <= MAX_COLS_PER_TABLE && Fits(schemas, a) && hint == Hint(schemas, a)
          && forall wider :: a < wider <= MAX_COLS_PER_TABLE ==> !Fits(schemas, wider);
        var b :| MIN_COLS <= b <= MAX_COLS_PER_TABLE && Fits(schemas, b) && other == Hint(schemas, b)
          && forall wider :: b < wider <= MAX_COLS_PER_TABLE ==> !Fits(schemas, wider);
      }
    }
  }

  /** The bounds: 800 characters, caps from 12 down to 4, and 797 characters of names before the dots. */
  lemma HintMeans(schemas: Schemas, hint: string)
    ensures IsHint(schemas, hint) <==>
      if schemas == [] then hint == ""
      else if exists cap :: 4 <= cap <= 12 && |Hint(schemas, cap)| <= 800 then
        exists cap :: 4 <= cap <= 12 && |Hint(schemas, cap)| <= 800 && hint == Hint(schemas, cap)
          && forall wider :: cap < wider <= 12 ==> |Hint(schemas, wider)| > 800
      else hint == (if |NamesHint(schemas)| <= 797 then NamesHint(schemas) else NamesHint(schemas)[..797]) + "..."
  {
    hide Hint, NamesHint;
    assert forall cap: nat :: Fits(schemas, cap) <==> |Hint(schemas, cap)| <= 800;
  }

  /** One table, shown whole and cut. */
  lemma TableExample(t: Table)
    requires t == Table("t", ["a", "b"])
    ensures TableText(t, 12) == "t (a, b)" && TableText(t, 1) == "t (a, ...)"
  {
    assert t.columns[..1] == ["a"] && ["a", "b"][..1] == ["a"];
  }

  lemma TwoParts(a: string, b: string, separator: string)
    ensures Join([a, b], separator) == a + separator + b
  {
    assert [a, b][..1] == [a];
  }

  /** One connection stands without its name, two with theirs. */
  lemma HintExample(one: Schema, c: string, d: string)
    requires one == Schema([Table("t", ["a", "b"])], ["t"])
    ensures Hint([(c, one)], 12) == "Available tables: t (a, b)"
    ensures Hint([(c, one), (d, one)], 12)
      == "Available tables: " + (c + ": " + "t (a, b)" + " | " + (d + ": " + "t (a, b)"))
    ensures NamesHint([(c, one)]) == "Available tables: t"
  {
    TableExample(one.tables[0]);
    assert TablesText(one.tables, 12) == "t (a, b)" by {
      assert one.tables[1..] == [];
      assert TableTexts(one.tables, 12) == ["t (a, b)"];
      assert ["t (a, b)"] + [] == ["t (a, b)"];
    }
    assert NamesText(one.names) == "t" by {
      assert Join(["t"], ", ") + "" == "t";
    }
    assert "" + "t (a, b)" == "t (a, b)" && "" + "t" == "t";
    var x, y := [(c, one)], [(c, one), (d, one)];
    assert seq(|x|, i requires 0 <= i < |x| => Label(x, i) + TablesText(x[i].1.tables, 12)) == ["t (a, b)"];
    assert seq(|x|, i requires 0 <= i < |x| => Label(x, i) + NamesText(x[i].1.names)) == ["t"];
    var parts := [c + ": " + "t (a, b)", d + ": " + "t (a, b)"];
    assert seq(|y|, i requires 0 <= i < |y| => Label(y, i) + TablesText(y[i].1.tables, 12)) == parts;
    TwoParts(parts[0], parts[1], " | ");
  }

  lemma {:induction false} TextsLength(tables: seq<Table>, cap: nat)
    ensures |TableTexts(tables, cap)| == |tables|
  {
    if tables != [] {
      TextsLength(tables[1..], cap);
    }
  }

  /** Of more than twenty tables, the first twenty are shown and the others counted. */
  lemma TwentyTables(tables: seq<Table>, names: seq<string>, cap: nat)
    requires |tables| == |names| > 20
    ensures TablesText(tables, cap)
      == Join(TableTexts(tables[..20], cap), ", ") + ", " + ("+" + Decimal(|tables| - 20) + " more tables")
    ensures NamesText(names) == Join(names[..20], ", ") + (" (+" + Decimal(|names| - 20) + " more)")
  {
    hide TableText, Decimal;
    var texts := TableTexts(tables[..20], cap);
    TextsLength(tables[..20], cap);
    JoinLast(texts, ", ", "+" + Decimal(|tables| - 20) + " more tables");
  }

  // ---------------------------------------------------------------------
  // Why the search cannot stop early
  // ---------------------------------------------------------------------

  lemma JoinLast(parts: seq<string>, separator: string, part: string)
    requires parts != []
    ensures Join(parts + [part], separator) == Join(parts, separator) + separator + part
  {
    assert (parts + [part])[..|parts|] == parts;
  }

  /** Showing one column less saves that column and its separator, except that hiding the very last one
      costs the five characters of ", ...". */
  lemma OneColumnLess(t: Table, cap: nat)
    requires 1 <= cap < |t.columns|
    ensures |TableText(t, cap)| + 2 + |t.columns[cap]|
      == |TableText(t, cap + 1)| + if cap + 1 == |t.columns| then 5 else 0
  {
    assert First(t.columns, cap + 1) == First(t.columns, cap) + [t.columns[cap]];
    JoinLast(First(t.columns, cap), ", ", t.columns[cap]);
  }

  /** So a smaller cap gives a longer text exactly when it hides one column, with a name of one or two
      characters or none. */
  lemma LongerIff(t: Table, cap: nat)
    requires 1 <= cap < |t.columns|
    ensures |TableText(t, cap)| > |TableText(t, cap + 1)| <==> cap + 1 == |t.columns| && |t.columns[cap]| < 3
  {
    OneColumnLess(t, cap);
  }

  // ---------------------------------------------------------------------
  // The manager
  // ---------------------------------------------------------------------

  function Put(schemas: Schemas, connection: string, schema: Schema): Schemas {
    if schemas == [] then [(connection, schema)]
    else if schemas[0].0 == connection then [(connection, schema)] + schemas[1..]
    else [schemas[0]] + Put(schemas[1..], connection, schema)
  }

  predicate DistinctNames(schemas: Schemas) {
    forall i, j :: 0 <= i < j < |schemas| ==> schemas[i].0 != schemas[j].0
  }

  lemma {:induction false} PutNew(schemas: Schemas, connection: string, schema: Schema)
    requires forall i :: 0 <= i < |schemas| ==> schemas[i].0 != connection
    ensures Put(schemas, connection, schema) == schemas + [(connection, schema)]
  {
    if schemas != [] {
      PutNew(schemas[1..], connection, schema);
    }
  }

  lemma {:induction false} PutKnown(schemas: Schemas, connection: string, schema: Schema, k: nat)
    requires k < |schemas| && schemas[k].0 == connection && forall i :: 0 <= i < k ==> schemas[i].0 != connection
    ensures Put(schemas, connection, schema) == schemas[k := (connection, schema)]
  {
    if k > 0 {
      PutKnown(schemas[1..], connection, schema, k - 1);
    }
  }

  /** A known connection keeps its place and gets the new schema; a new one comes last; the others stay, and no
      name comes twice. */
  lemma PutMeans(schemas: Schemas, connection: string, schema: Schema)
    requires DistinctNames(schemas)
    ensures DistinctNames(Put(schemas, connection, schema))
    ensures forall k :: 0 <= k < |schemas| && schemas[k].0 == connection ==>
      Put(schemas, connection, schema) == schemas[k := (connection, schema)]
    ensures (forall i :: 0 <= i < |schemas| ==> schemas[i].0 != connection) ==>
      Put(schemas, connection, schema) == schemas + [(connection, schema)]
  {
    hide Put;
    if forall i :: 0 <= i < |schemas| ==> schemas[i].0 != connection {
      PutNew(schemas, connection, schema);
    } else {
      forall k | 0 <= k < |schemas| && schemas[k].0 == connection
        ensures Put(schemas, connection, schema) == schemas[k := (connection, schema)]
      {
        PutKnown(schemas, connection, schema, k);
      }
    }
  }

  function Described(base: string, hint: string): string {
    if hint != "" then base + "\n\n" + hint else base
  }

  class SchemaHintManager {
    const enabled: bool
    var tools: seq<string>
    var descriptions: seq<string>
    var schemas: Schemas

    ghost predicate Valid()
      reads this
    {
      |descriptions| == |tools|
    }

    constructor (on: bool)
      ensures Valid() && enabled == on && tools == [] && schemas == []
    {
      enabled, tools, descriptions, schemas := on, [], [], [];
    }

    method RegisterTool(baseDescription: string)
      requires Valid()
      modifies this
      ensures Valid() && tools == old(tools) + [baseDescription]
      ensures descriptions == old(descriptions) + [baseDescription] && schemas == old(schemas)
    {
      tools := tools + [baseDescription];
      descriptions := descriptions + [baseDescription];
    }

    /** Every registered tool ends up with its own base description and the one hint for all connections,
        and is never more than 802 characters longer than its base. */
    method UpdateHints(connection: string, schema: Schema)
      requires Valid()
      modifies this
      ensures Valid() && tools == old(tools)
      ensures !enabled ==> schemas == old(schemas) && descriptions == old(descriptions)
      ensures enabled ==> schemas == Put(old(schemas), connection, schema)
      ensures enabled ==>
        exists hint :: IsHint(schemas, hint) &&
          forall i :: 0 <= i < |tools| ==> descriptions[i] == tools[i] + "\n\n" + hint
      ensures enabled ==> forall i :: 0 <= i < |tools| ==> |descriptions[i]| <= |tools[i]| + 802
    {
      if !enabled {
        return;
      }
      schemas := Put(schemas, connection, schema);
      var hint := BuildHint(schemas);
      HintIsShort(schemas, hint);
      NotEmpty(schemas, hint);
      hide IsHint;
      var i := 0;
      while i < |tools|
        invariant 0 <= i <= |tools| && Valid() && tools == old(tools)
          && schemas == Put(old(schemas), connection, schema)
        invariant forall j :: 0 <= j < i ==> descriptions[j] == tools[j] + "\n\n" + hint
      {
        descriptions := descriptions[i := Described(tools[i], hint)];
        i := i + 1;
      }
    }
  }

  lemma NotEmpty(schemas: Schemas, hint: string)
    requires schemas != [] && IsHint(schemas, hint)
    ensures hint != ""
  {
  }
}

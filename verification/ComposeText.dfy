/**
  Compose expansion seen as a printer (src/compose-expander.ts): the list it splices in can be
  read back, a `?` in row data never reaches the translator, and expanding then substituting
  is the same as doing both at once unless the expansion itself completes a `{param}`.
*/
module ComposeText {
  import opened Common
  import opened Placeholders
  import opened Templates

  // ---------------------------------------------------------------------
  // Reading a printed list back
  // ---------------------------------------------------------------------

  /** After an opening quote: the literal's value and what follows its closing quote. */
  function LexString(s: string): Option<(string, string)> {
    if s == "" then None
    else if s[0] != '\'' then
      match LexString(s[1..]) case None => None case Some((v, rest)) => Some(([s[0]] + v, rest))
    else if |s| > 1 && s[1] == '\'' then
      match LexString(s[2..]) case None => None case Some((v, rest)) => Some(("'" + v, rest))
    else Some(("", s[1..]))
  }

  predicate IsNumeralChar(c: char) {
    '0' <= c <= '9' || c in {'-', '+', '.', 'e'}
  }

  function NumeralRun(s: string): (n: nat)
    ensures n <= |s|
  {
    if s == "" || !IsNumeralChar(s[0]) then 0 else 1 + NumeralRun(s[1..])
  }

  /** One literal at the front of s, and the rest. */
  function LexCell(s: string): Option<(Cell, string)> {
    if s != "" && s[0] == '\'' then
      match LexString(s[1..]) case None => None case Some((v, rest)) => Some((Text(v), rest))
    else
      var n := NumeralRun(s);
      if IsNumeral(s[..n]) then Some((Number(s[..n]), s[n..])) else None
  }

  /** A whole list of literals separated by `, `. */
  function LexList(s: string): Option<seq<Cell>>
    decreases |s|
  {
    match LexCell(s)
    case None => None
    case Some((c, rest)) =>
      if rest == "" then Some([c])
      else if 2 <= |rest| < |s| && rest[..2] == ", " then
        (match LexList(rest[2..]) case None => None case Some(cs) => Some([c] + cs))
      else None
  }

  /** The escaped value with its closing quote, built from the front. */
  function Closed(v: string): string {
    if v == "" then ['\'']
    else if v[0] == '\'' then ['\'', '\''] + Closed(v[1..])
    else [v[0]] + Closed(v[1..])
  }

  lemma {:induction false} ClosedIsEscaped(v: string)
    ensures Closed(v) == Escape(v) + "'"
    ensures PrintCell(Text(v)) == ['\''] + Closed(v)
  {
    if v == "" {
    } else {
      ClosedIsEscaped(v[1..]);
      Assoc(if v[0] == '\'' then "''" else [v[0]], Escape(v[1..]), "'");
    }
    Assoc("'", Escape(v), "'");
  }

  lemma {:induction false} LexClosed(v: string, rest: string)
    requires rest == "" || rest[0] != '\''
    ensures LexString(Closed(v) + rest) == Some((v, rest))
  {
    if v == "" {
      assert (['\''] + rest)[1..] == rest;
    } else {
      var tail := Closed(v[1..]) + rest;
      LexClosed(v[1..], rest);
      assert v == [v[0]] + v[1..];
      if v[0] == '\'' {
        Assoc(['\'', '\''], Closed(v[1..]), rest);
        assert (['\'', '\''] + tail)[2..] == tail;
      } else {
        Assoc([v[0]], Closed(v[1..]), rest);
        assert ([v[0]] + tail)[1..] == tail;
      }
    }
  }

  lemma {:induction false} NumeralRunOver(p: string, rest: string)
    requires forall i :: 0 <= i < |p| ==> IsNumeralChar(p[i])
    requires rest == "" || !IsNumeralChar(rest[0])
    ensures NumeralRun(p + rest) == |p|
  {
    if p == "" {
      assert p + rest == rest;
    } else {
      assert (p + rest)[1..] == p[1..] + rest;
      NumeralRunOver(p[1..], rest);
    }
  }

  lemma LexNumeral(n: Numeral, rest: string)
    requires rest == "" || rest[0] == ','
    ensures LexCell(n + rest) == Some((Number(n), rest))
  {
    NumeralRunOver(n, rest);
    var s := n + rest;
    assert s[0] == n[0] != '\'';
    assert s[..|n|] == n;
    assert s[|n|..] == rest;
  }

  lemma LexText(v: string, rest: string)
    requires rest == "" || rest[0] == ','
    ensures LexCell(PrintCell(Text(v)) + rest) == Some((Text(v), rest))
  {
    hide LexString, Escape, NumeralRun, IsNumeral, Closed;
    ClosedIsEscaped(v);
    Assoc(['\''], Closed(v), rest);
    LexClosed(v, rest);
    assert (['\''] + (Closed(v) + rest))[1..] == Closed(v) + rest;
  }

  lemma LexPrintedCell(c: Cell, rest: string)
    requires !c.Other?
    requires rest == "" || rest[0] == ','
    ensures LexCell(PrintCell(c) + rest) == Some((c, rest))
  {
    hide LexCell;
    match c
    case Number(n) => LexNumeral(n, rest);
    case Text(v) => LexText(v, rest);
  }

  /** The text spliced in for a column reads back as exactly its values, in order. */
  lemma {:induction false} LexPrinted(cells: seq<Cell>)
    requires cells != [] && Other !in cells
    ensures LexList(PrintList(cells)) == Some(cells)
  {
    hide LexCell, PrintCell;
    if |cells| == 1 {
      LexPrintedCell(cells[0], "");
      assert PrintCell(cells[0]) + "" == PrintCell(cells[0]);
      assert cells == [cells[0]];
    } else {
      var tail := PrintList(cells[1..]);
      var rest := ", " + tail;
      Assoc(PrintCell(cells[0]), ", ", tail);
      LexPrintedCell(cells[0], rest);
      LexPrinted(cells[1..]);
      assert rest[..2] == ", " && rest[2..] == tail;
      assert cells == [cells[0]] + cells[1..];
      PrintedCellNonempty(cells[0]);
    }
  }

  lemma PrintedCellNonempty(c: Cell)
    requires !c.Other?
    ensures PrintCell(c) != ""
  {
  }

  /** Different columns never print alike. */
  lemma PrintInjective(a: seq<Cell>, b: seq<Cell>)
    requires a != [] && Other !in a && b != [] && Other !in b
    requires PrintList(a) == PrintList(b)
    ensures a == b
  {
    LexPrinted(a);
    LexPrinted(b);
  }

  // ---------------------------------------------------------------------
  // Row data under the translator
  // ---------------------------------------------------------------------

  lemma CopiedCons(c: char, s: string)
    ensures Copied([c] + s) == [Verbatim([c])] + Copied(s)
  {
    assert ([c] + s)[1..] == s;
  }

  lemma CopiedOne(c: char)
    ensures Copied([c]) == [Verbatim([c])]
  {
  }

  /** From inside the literal to just after its closing quote. */
  lemma {:induction false} ScanClosed(v: string, rest: string, prev: char, k: nat)
    ensures Scan(Closed(v) + rest, true, prev, k) == Copied(Closed(v)) + Scan(rest, false, '\'', k)
  {
    hide Scan, Copied;
    if v == "" {
      ScanOther('\'', rest, true, prev, k);
      CopiedOne('\'');
    } else if v[0] == '\'' {
      var tail := Closed(v[1..]);
      ScanClosed(v[1..], rest, '\'', k);
      DoubledQuote(tail, rest, prev, k);
      DoubledCopy(tail);
      Assoc([Verbatim("'")], Copied(tail), Scan(rest, false, '\'', k));
      Assoc([Verbatim("'")], [Verbatim("'")] + Copied(tail), Scan(rest, false, '\'', k));
    } else {
      var c, tail := v[0], Closed(v[1..]);
      ScanClosed(v[1..], rest, if IsBlank(c) then prev else c, k);
      ScanOther(c, tail + rest, true, prev, k);
      CopiedCons(c, tail);
      Assoc([c], tail, rest);
      Assoc([Verbatim([c])], Copied(tail), Scan(rest, false, '\'', k));
    }
  }

  lemma DoubledCopy(tail: string)
    ensures Copied(['\'', '\''] + tail) == [Verbatim("'")] + ([Verbatim("'")] + Copied(tail))
  {
    hide Copied;
    assert ['\'', '\''] + tail == ['\''] + (['\''] + tail);
    CopiedCons('\'', ['\''] + tail);
    CopiedCons('\'', tail);
  }

  /** A doubled quote leaves the literal and enters it again. */
  lemma DoubledQuote(tail: string, rest: string, prev: char, k: nat)
    ensures Scan(['\'', '\''] + tail + rest, true, prev, k)
         == [Verbatim("'")] + ([Verbatim("'")] + Scan(tail + rest, true, '\'', k))
  {
    hide Scan;
    assert ['\'', '\''] + tail + rest == ['\''] + (['\''] + (tail + rest));
    ScanOther('\'', ['\''] + (tail + rest), true, prev, k);
    ScanOther('\'', tail + rest, false, '\'', k);
  }

  /** The character a printed cell ends in. */
  function LastOf(c: Cell): char {
    match c
    case Number(n) => n[|n| - 1]
    case Text(_) => '\''
    case Other => '\0'
  }

  lemma {:induction false} CarryLast(p: string, prev: char)
    requires p != "" && !IsBlank(p[|p| - 1])
    ensures Carry(p, prev) == p[|p| - 1]
  {
    if |p| > 1 {
      CarryLast(p[1..], if IsBlank(p[0]) then prev else p[0]);
    }
  }

  lemma {:induction false} CopiedAppend(a: string, b: string)
    ensures Copied(a + b) == Copied(a) + Copied(b)
  {
    if a == "" {
      assert a + b == b;
      assert Copied(a) == [];
    } else {
      hide Copied;
      var c, t := a[0], a[1..];
      assert a == [c] + t;
      Assoc([c], t, b);
      CopiedAppend(t, b);
      CopiedCons(c, t + b);
      CopiedCons(c, t);
      Assoc([Verbatim([c])], Copied(t), Copied(b));
    }
  }

  lemma ScanCell(c: Cell, rest: string, prev: char, k: nat)
    requires !c.Other?
    ensures Scan(PrintCell(c) + rest, false, prev, k) == Copied(PrintCell(c)) + Scan(rest, false, LastOf(c), k)
    ensures EndsOperand(LastOf(c))
  {
    hide Scan, Copied, Escape, Closed;
    match c
    case Number(n) => ScanNumeral(n, rest, prev, k);
    case Text(v) => ScanText(v, rest, prev, k);
  }

  lemma ScanNumeral(n: Numeral, rest: string, prev: char, k: nat)
    ensures Scan(n + rest, false, prev, k) == Copied(n) + Scan(rest, false, n[|n| - 1], k)
  {
    hide Scan, Copied;
    ScanPlain(n, rest, false, prev, k);
    CarryLast(n, prev);
  }

  lemma ScanText(v: string, rest: string, prev: char, k: nat)
    ensures Scan(PrintCell(Text(v)) + rest, false, prev, k) == Copied(PrintCell(Text(v))) + Scan(rest, false, '\'', k)
  {
    hide Scan, Copied, Closed, PrintCell;
    var inner := Closed(v);
    ClosedIsEscaped(v);
    ScanClosed(v, rest, '\'', k);
    Assoc(['\''], inner, rest);
    ScanOther('\'', inner + rest, false, prev, k);
    CopiedCons('\'', inner);
    Assoc([Verbatim("'")], Copied(inner), Scan(rest, false, '\'', k));
  }

  lemma ScanSeparator(rest: string, prev: char, k: nat)
    ensures Scan(", " + rest, false, prev, k) == Copied(", ") + Scan(rest, false, ',', k)
  {
    ScanPlain(", ", rest, false, prev, k);
    assert ", "[1..] == " " && " "[1..] == "";
    assert Carry(", ", prev) == Carry(" ", ',') == ',';
  }

  /** A spliced list is copied token by token, whatever its strings contain: no `?` in it is
      numbered, and the scan goes on outside quotes, after an operand. */
  lemma {:induction false} ScanList(cells: seq<Cell>, rest: string, prev: char, k: nat)
    requires cells != [] && Other !in cells
    ensures EndsOperand(LastOf(cells[|cells| - 1]))
    ensures Scan(PrintList(cells) + rest, false, prev, k)
         == Copied(PrintList(cells)) + Scan(rest, false, LastOf(cells[|cells| - 1]), k)
  {
    hide Scan, Copied, PrintCell, LastOf, EndsOperand;
    ScanCell(cells[0], if |cells| == 1 then rest else ", " + (PrintList(cells[1..]) + rest), prev, k);
    if |cells| > 1 {
      ScanList(cells[1..], rest, ',', k);
      ScanCons(PrintCell(cells[0]), PrintList(cells[1..]), rest, prev, LastOf(cells[0]), LastOf(cells[|cells| - 1]), k);
    }
  }

  /** A cell, the separator and the tail of the list, put together. */
  lemma ScanCons(first: string, tail: string, rest: string, prev: char, c: char, last: char, k: nat)
    requires Scan(first + (", " + (tail + rest)), false, prev, k)
          == Copied(first) + Scan(", " + (tail + rest), false, c, k)
    requires Scan(tail + rest, false, ',', k) == Copied(tail) + Scan(rest, false, last, k)
    ensures Scan(first + ", " + tail + rest, false, prev, k) == Copied(first + ", " + tail) + Scan(rest, false, last, k)
  {
    hide *;
    var more := Scan(rest, false, last, k);
    ScanSeparator(tail + rest, c, k);
    Assoc(first, ", ", tail);
    Assoc(first, ", " + tail, rest);
    Assoc(", ", tail, rest);
    CopiedAppend(", ", tail);
    CopiedAppend(first, ", " + tail);
    Assoc(Copied(", "), Copied(tail), more);
    Assoc(Copied(first), Copied(", ") + Copied(tail), more);
  }

  // ---------------------------------------------------------------------
  // Which references a template makes
  // ---------------------------------------------------------------------

  datatype Reference = Reference(step: string, column: string)

  function RefAt(s: string): Reference
    requires RefLen(s) > 0
  {
    Reference(StepName(s), ColumnName(s))
  }

  /** Every `{step.column}` of s, left to right. */
  function Refs(s: string): seq<Reference>
    decreases |s|
  {
    if s == "" then []
    else if RefLen(s) > 0 then [RefAt(s)] + Refs(s[RefLen(s)..])
    else Refs(s[1..])
  }

  /** xs with only the first occurrence of each element. */
  function Distinct<T(==,!new)>(xs: seq<T>): (ys: seq<T>)
    ensures forall x :: x in ys <==> x in xs
    ensures forall i, j :: 0 <= i < j < |ys| ==> ys[i] != ys[j]
  {
    if xs == [] then []
    else
      var init, last := xs[..|xs| - 1], xs[|xs| - 1];
      assert xs == init + [last];
      var ys := Distinct(init);
      if last in ys then ys else ys + [last]
  }

  /** What is listed earlier occurred earlier. */
  lemma {:induction false} DistinctInOrder<T(!new)>(xs: seq<T>, i: nat, j: nat, b: nat)
    requires i < j < |Distinct(xs)| && b < |xs| && xs[b] == Distinct(xs)[j]
    ensures exists a :: 0 <= a < b && xs[a] == Distinct(xs)[i]
  {
    var init, last := xs[..|xs| - 1], xs[|xs| - 1];
    var ys := Distinct(init);
    if j < |ys| && b < |init| {
      DistinctInOrder(init, i, j, b);
      var a :| 0 <= a < b && init[a] == ys[i];
      assert xs[a] == Distinct(xs)[i];
    } else {
      assert Distinct(xs)[i] == ys[i] && ys[i] in init;
      if j < |ys| {
        assert ys[j] in init;
        var a :| 0 <= a < |init| && init[a] == ys[i];
        assert xs[a] == ys[i] && b == |init|;
      } else {
        assert Distinct(xs)[j] == last && last !in init;
        assert forall m :: 0 <= m < |init| ==> xs[m] == init[m] && init[m] != last;
        var a :| 0 <= a < |init| && init[a] == ys[i];
        assert xs[a] == ys[i];
      }
    }
  }

  /** `extractComposeReferences`: each reference once, in order of first occurrence. */
  method ExtractComposeReferences(sql: string) returns (refs: seq<Reference>)
    ensures refs == Distinct(Refs(sql))
  {
    hide RefLen, RefAt, Refs, Distinct, Collected;
    refs := [];
    var seen: set<Reference>, i := {}, 0;
    ghost var done: seq<Reference> := [];
    NothingYet(sql);
    while i < |sql|
      invariant i <= |sql|
      invariant done + Refs(sql[i..]) == Refs(sql)
      invariant refs == Distinct(done)
      invariant Collected(seen, refs)
    {
      RefsStep(sql, i, done);
      if RefLen(sql[i..]) > 0 {
        var key := RefAt(sql[i..]);
        DistinctSnoc(done, key);
        CollectedStep(seen, refs, key);
        done := done + [key];
        if key !in seen {
          seen := seen + {key};
          refs := refs + [key];
        }
        i := i + RefLen(sql[i..]);
      } else {
        i := i + 1;
      }
    }
    NothingLeft(sql[i..], done);
  }

  lemma NothingYet(sql: string)
    ensures [] + Refs(sql[0..]) == Refs(sql)
    ensures Distinct<Reference>([]) == [] && Collected<Reference>({}, [])
  {
    assert sql[0..] == sql;
  }

  lemma NothingLeft(s: string, done: seq<Reference>)
    requires s == ""
    ensures done + Refs(s) == done
  {
  }

  /** `seen` remembers what `refs` lists. */
  ghost predicate Collected<T(!new)>(seen: set<T>, refs: seq<T>) {
    forall r :: r in seen <==> r in refs
  }

  lemma CollectedStep<T(!new)>(seen: set<T>, refs: seq<T>, key: T)
    requires Collected(seen, refs)
    ensures key in seen <==> key in refs
    ensures Collected(seen + {key}, refs + [key])
  {
  }

  lemma RefsStep(sql: string, i: nat, done: seq<Reference>)
    requires i < |sql|
    ensures RefLen(sql[i..]) == 0 ==> done + Refs(sql[i..]) == done + Refs(sql[i + 1..])
    ensures RefLen(sql[i..]) > 0 ==>
      done + Refs(sql[i..]) == (done + [RefAt(sql[i..])]) + Refs(sql[i + RefLen(sql[i..])..])
  {
    hide RefLen, RefAt;
    var rest := sql[i..];
    assert rest[RefLen(rest)..] == sql[i + RefLen(rest)..] && rest[1..] == sql[i + 1..];
    if RefLen(rest) > 0 {
      var key, tail := RefAt(rest), Refs(sql[i + RefLen(rest)..]);
      assert Refs(rest) == [key] + tail;
      Assoc(done, [key], tail);
    }
  }

  lemma DistinctSnoc<T(!new)>(xs: seq<T>, x: T)
    ensures Distinct(xs + [x]) == if x in Distinct(xs) then Distinct(xs) else Distinct(xs) + [x]
  {
    assert (xs + [x])[..|xs|] == xs;
  }

  /** A template expands if and only if every reference it makes resolves. */
  lemma {:induction false} ExpandsIffResolved(s: string, ctx: Context)
    ensures Expand(s, ctx).Ok? <==> forall r :: r in Refs(s) ==> Lookup(r.step, r.column, ctx).Ok?
    decreases |s|
  {
    hide RefLen, StepName, ColumnName, Lookup, PrintList;
    if s == "" {
    } else if RefLen(s) > 0 {
      ExpandsIffResolved(s[RefLen(s)..], ctx);
      assert RefAt(s) in Refs(s);
    } else {
      ExpandsIffResolved(s[1..], ctx);
    }
  }

  /** Reference k is the first that does not resolve, and this is its error. */
  predicate FirstUnresolved(refs: seq<Reference>, ctx: Context, k: nat, e: TemplateError) {
    && k < |refs| && Lookup(refs[k].step, refs[k].column, ctx) == Err(e)
    && forall j :: 0 <= j < k ==> Lookup(refs[j].step, refs[j].column, ctx).Ok?
  }

  /** When expansion fails, it fails with the error of the leftmost reference that does not resolve. */
  lemma {:induction false} LeftmostFailure(s: string, ctx: Context) returns (k: nat)
    requires Expand(s, ctx).Err?
    ensures FirstUnresolved(Refs(s), ctx, k, Expand(s, ctx).error)
    decreases |s|
  {
    hide RefLen, Lookup, PrintList, StepName, ColumnName;
    if RefLen(s) > 0 {
      var rest := s[RefLen(s)..];
      assert Refs(s) == [RefAt(s)] + Refs(rest);
      if Lookup(StepName(s), ColumnName(s), ctx).Err? {
        k := 0;
      } else {
        var later := LeftmostFailure(rest, ctx);
        k := later + 1;
      }
    } else {
      k := LeftmostFailure(s[1..], ctx);
      assert Refs(s) == Refs(s[1..]) && Expand(s, ctx) == Prepend([s[0]], Expand(s[1..], ctx));
    }
  }

  /** The text put in the place of a reference reads back as the column of that name of that step's result. */
  lemma ReferenceReadsBack(s: string, ctx: Context)
    requires RefLen(s) > 0 && Expand(s, ctx).Ok?
    ensures Expand(s[RefLen(s)..], ctx).Ok?
    ensures exists text, cells ::
      && Expand(s, ctx).value == text + Expand(s[RefLen(s)..], ctx).value
      && LexList(text) == Some(cells)
      && StepName(s) in ctx && IsColumn(cells, ctx[StepName(s)], ColumnName(s))
  {
    hide RefLen, Lookup, PrintList, LexList, IsColumn, StepName, ColumnName;
    LookupMeans(StepName(s), ColumnName(s), ctx);
    var cells := Lookup(StepName(s), ColumnName(s), ctx).value;
    LexPrinted(cells);
    assert Expand(s, ctx).value == PrintList(cells) + Expand(s[RefLen(s)..], ctx).value;
  }
}

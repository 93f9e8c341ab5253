/**
  The whole text pipeline of a tool's SQL: references are expanded, parameters become `?`,
  and the sidecar turns each `?` into the driver's marker. What must survive is the pairing of
  the k-th parameter of the template with the k-th value sent along.
*/
module Pipeline {
  import opened Common
  import opened Placeholders
  import opened Templates
  import opened ComposeText

  // ---------------------------------------------------------------------
  // Counting parameters
  // ---------------------------------------------------------------------

  /** Positions of s at which a declared `{name}` starts. */
  function HoleCount(s: string, declared: set<string>): nat {
    if s == "" then 0 else (if HoleLen(s, declared) > 0 then 1 else 0) + HoleCount(s[1..], declared)
  }

  lemma {:induction false} CountPlain(p: string, rest: string, declared: set<string>)
    requires '{' !in p
    ensures HoleCount(p + rest, declared) == HoleCount(rest, declared)
  {
    if p == "" {
      assert p + rest == rest;
    } else {
      assert (p + rest)[1..] == p[1..] + rest;
      assert (p + rest)[0] == p[0] != '{';
      CountPlain(p[1..], rest, declared);
    }
  }

  /** Counting matches by position and cutting the text at its matches agree. */
  lemma {:induction false} PartsCount(s: string, declared: set<string>)
    ensures |Holes(Parts(s, declared))| == HoleCount(s, declared)
    decreases |s|
  {
    hide ParamLen, ParamName;
    if s != "" {
      var m := HoleLen(s, declared);
      if m > 0 {
        PartsCount(s[m..], declared);
        assert s[1..] == s[1..m] + s[m..];
        CountPlain(s[1..m], s[m..], declared);
      } else {
        PartsCount(s[1..], declared);
      }
    }
  }

  /** What `w` names when it follows an opening brace. */
  function Named(w: string): Option<string> {
    var n := IdentRun(w);
    if 0 < n < |w| && IsIdentStart(w[0]) && w[n] == '}' then Some(w[..n]) else None
  }

  predicate Opens(w: string, declared: set<string>) {
    Named(w).Some? && Named(w).value in declared
  }

  lemma OpensIsHole(w: string, declared: set<string>)
    ensures HoleLen(['{'] + w, declared) > 0 <==> Opens(w, declared)
    ensures Opens(w, declared) ==>
      HoleLen(['{'] + w, declared) == |Named(w).value| + 2 && ParamName(['{'] + w) == Named(w).value
  {
    var s := ['{'] + w;
    assert s[1..] == w;
    if ParamLen(s) > 0 || Named(w).Some? {
      assert s[1..IdentRun(w) + 1] == w[..IdentRun(w)];
    }
  }

  /** What follows a name does not depend on text further on. */
  lemma {:induction false} RunStable(u: string, x: string)
    requires IdentRun(u) < |u|
    ensures IdentRun(u + x) == IdentRun(u)
  {
    if IsIdentChar(u[0]) {
      assert (u + x)[1..] == u[1..] + x;
      RunStable(u[1..], x);
    }
  }

  // ---------------------------------------------------------------------
  // Row data under the parameter pattern
  // ---------------------------------------------------------------------

  /** Escaping and closing a string keep the run of identifier characters it starts with. */
  lemma {:induction false} ClosedRun(u: string, rest: string)
    ensures var w, n := Closed(u) + rest, IdentRun(u);
      && n < |w| && IdentRun(w) == n && w[..n] == u[..n]
      && w[n] == if n < |u| then u[n] else '\''
  {
    if u != "" && IsIdentChar(u[0]) {
      var tail := Closed(u[1..]) + rest;
      ClosedRun(u[1..], rest);
      Assoc([u[0]], Closed(u[1..]), rest);
      ConsRun(u[0], tail);
      ConsRun(u[0], u[1..]);
      assert u == [u[0]] + u[1..];
    }
  }

  lemma RunOfCons(c: char, s: string)
    requires IsIdentChar(c)
    ensures IdentRun([c] + s) == IdentRun(s) + 1
  {
    assert ([c] + s)[0] == c && ([c] + s)[1..] == s;
  }

  /** An identifier character put in front lengthens the run by one. */
  lemma ConsRun(c: char, s: string)
    requires IsIdentChar(c)
    ensures var n := IdentRun(s);
      && IdentRun([c] + s) == n + 1
      && ([c] + s)[..n + 1] == [c] + s[..n]
      && (n < |s| ==> ([c] + s)[n + 1] == s[n])
  {
    hide *;
    RunOfCons(c, s);
    ConsSlice(c, s, IdentRun(s));
  }

  lemma ConsSlice(c: char, s: string, n: nat)
    requires n <= |s|
    ensures ([c] + s)[..n + 1] == [c] + s[..n]
    ensures n < |s| ==> ([c] + s)[n + 1] == s[n]
  {
  }

  lemma OpensClosed(u: string, rest: string, declared: set<string>)
    ensures Opens(Closed(u) + rest, declared) == Opens(u, declared)
  {
    hide Closed, IdentRun;
    ClosedRun(u, rest);
    var w, n := Closed(u) + rest, IdentRun(u);
    if n > 0 {
      assert w[0] == w[..n][0] == u[..n][0] == u[0];
    }
  }

  /** One more character in front. */
  lemma CountStep(c: char, rest: string, declared: set<string>)
    ensures HoleCount([c] + rest, declared) ==
      (if c == '{' && Opens(rest, declared) then 1 else 0) + HoleCount(rest, declared)
  {
    hide ParamName, Opens;
    assert ([c] + rest)[1..] == rest;
    OpensIsHole(rest, declared);
  }

  /** A string literal holds the parameters its value holds. */
  lemma {:induction false} CountClosed(v: string, rest: string, declared: set<string>)
    ensures HoleCount(Closed(v) + rest, declared) == HoleCount(v, declared) + HoleCount(rest, declared)
  {
    hide HoleCount, Opens;
    if v == "" {
      CountStep('\'', rest, declared);
      CountNothing(declared);
    } else {
      var c, tail := v[0], Closed(v[1..]);
      CountClosed(v[1..], rest, declared);
      assert v == [c] + v[1..];
      CountStep(c, v[1..], declared);
      if c == '\'' {
        Assoc(['\'', '\''], tail, rest);
        assert ['\'', '\''] + (tail + rest) == ['\''] + (['\''] + (tail + rest));
        CountStep('\'', ['\''] + (tail + rest), declared);
        CountStep('\'', tail + rest, declared);
      } else {
        Assoc([c], tail, rest);
        CountStep(c, tail + rest, declared);
        OpensClosed(v[1..], rest, declared);
      }
    }
  }

  lemma CountNothing(declared: set<string>)
    ensures HoleCount("", declared) == 0
  {
  }

  /** Parameters that the strings of a column spell out. */
  function CellHoles(c: Cell, declared: set<string>): nat {
    match c case Text(v) => HoleCount(v, declared) case _ => 0
  }

  function ListHoles(cells: seq<Cell>, declared: set<string>): nat {
    if cells == [] then 0 else CellHoles(cells[0], declared) + ListHoles(cells[1..], declared)
  }

  lemma CountCell(c: Cell, rest: string, declared: set<string>)
    requires !c.Other?
    ensures HoleCount(PrintCell(c) + rest, declared) == CellHoles(c, declared) + HoleCount(rest, declared)
  {
    hide HoleCount, Closed, Escape;
    match c
    case Number(n) => CountPlain(n, rest, declared);
    case Text(v) =>
      ClosedIsEscaped(v);
      Assoc(['\''], Closed(v), rest);
      CountStep('\'', Closed(v) + rest, declared);
      CountClosed(v, rest, declared);
  }

  lemma {:induction false} CountList(cells: seq<Cell>, rest: string, declared: set<string>)
    requires cells != [] && Other !in cells
    ensures HoleCount(PrintList(cells) + rest, declared) == ListHoles(cells, declared) + HoleCount(rest, declared)
  {
    hide HoleCount, PrintCell, CellHoles;
    if |cells| == 1 {
      CountCell(cells[0], rest, declared);
      assert cells[1..] == [];
    } else {
      var first, tail := PrintCell(cells[0]), PrintList(cells[1..]);
      CountList(cells[1..], rest, declared);
      CountPlain(", ", tail + rest, declared);
      CountCell(cells[0], ", " + (tail + rest), declared);
      Assoc(first, ", ", tail);
      Assoc(first, ", " + tail, rest);
      Assoc(", ", tail, rest);
    }
  }

  // ---------------------------------------------------------------------
  // Expanding, then substituting
  // ---------------------------------------------------------------------

  /** Template pieces with each reference replaced by the characters of its data. */
  function Flatten(ps: seq<Piece>, ctx: Context): seq<Piece> {
    if ps == [] then []
    else (if ps[0].Ref? then Chars(Data(ps[0].step, ps[0].column, ctx)) else [ps[0]]) + Flatten(ps[1..], ctx)
  }

  /** Parameters the expansion of s makes up: those its strings spell out, and those that a `{`
      of the template completes only because data has been put after it. */
  function Planted(s: string, ctx: Context, declared: set<string>): nat
    requires Expand(s, ctx).Ok?
    decreases |s|
  {
    if s == "" then 0
    else
      var r := RefLen(s);
      if r > 0 then
        ListHoles(Lookup(StepName(s), ColumnName(s), ctx).value, declared) + Planted(s[r..], ctx, declared)
      else
        (if s[0] == '{' && HoleLen(s, declared) == 0 && Opens(Expand(s[1..], ctx).value, declared) then 1 else 0)
        + Planted(s[1..], ctx, declared)
  }

  lemma {:induction false} ExpandPlain(p: string, rest: string, ctx: Context)
    requires '{' !in p
    ensures Expand(p + rest, ctx) == Prepend(p, Expand(rest, ctx))
  {
    hide RefLen;
    var tail := Expand(rest, ctx);
    if p == "" {
      assert p + rest == rest;
      assert tail.Ok? ==> "" + tail.value == tail.value;
    } else {
      assert (p + rest)[1..] == p[1..] + rest;
      assert RefLen(p + rest) == 0 by { assert (p + rest)[0] == p[0] != '{'; }
      ExpandPlain(p[1..], rest, ctx);
      if tail.Ok? {
        Assoc([p[0]], p[1..], tail.value);
        assert p == [p[0]] + p[1..];
      }
    }
  }

  lemma {:induction false} PlantedPlain(p: string, rest: string, ctx: Context, declared: set<string>)
    requires '{' !in p && Expand(rest, ctx).Ok?
    ensures Expand(p + rest, ctx).Ok?
    ensures Planted(p + rest, ctx, declared) == Planted(rest, ctx, declared)
  {
    hide RefLen, HoleLen, Opens;
    ExpandPlain(p, rest, ctx);
    if p == "" {
      assert p + rest == rest;
    } else {
      assert (p + rest)[1..] == p[1..] + rest;
      assert (p + rest)[0] == p[0] != '{';
      PlantedPlain(p[1..], rest, ctx, declared);
    }
  }

  /** A declared parameter is an opening brace, its name and a closing brace, whatever comes after. */
  lemma HoleShape(s: string, declared: set<string>)
    requires HoleLen(s, declared) > 0
    ensures var m := HoleLen(s, declared);
      && '{' !in s[1..m] && s == ['{'] + (s[1..m] + s[m..]) && s[..m] == ['{'] + s[1..m]
      && IdentRun(s[1..m]) == m - 2 && s[1..m][..m - 2] == ParamName(s) && s[m - 1] == '}'
  {
    var m := HoleLen(s, declared);
    var u := s[1..m];
    assert s[1..] == u + s[m..];
    assert IdentRun(u) < |u| by { assert u[|u| - 1] == s[m - 1] == '}'; }
    RunStable(u, s[m..]);
  }

  lemma HoleOpens(s: string, y: string, declared: set<string>)
    requires HoleLen(s, declared) > 0
    ensures var w := s[1..HoleLen(s, declared)] + y;
      Opens(w, declared) && Named(w).value == ParamName(s)
  {
    hide ParamLen;
    var m := HoleLen(s, declared);
    HoleShape(s, declared);
    var u := s[1..m];
    RunStable(u, y);
    assert (u + y)[..m - 2] == u[..m - 2];
    assert (u + y)[m - 2] == u[m - 2] == s[m - 1];
    assert IsIdentStart(u[0]) by { HoleStart(s, declared); }
  }

  lemma HoleStart(s: string, declared: set<string>)
    requires HoleLen(s, declared) > 0
    ensures HoleLen(s, declared) >= 3 && IsIdentStart(s[1])
  {
  }

  /** A declared parameter of the template survives expansion untouched. */
  lemma HoleExpanded(s: string, ctx: Context, declared: set<string>)
    requires HoleLen(s, declared) > 0
    ensures var m := HoleLen(s, declared);
      Expand(s, ctx) == Prepend(s[..m], Expand(s[m..], ctx))
  {
    hide ParamLen;
    var m := HoleLen(s, declared);
    var u, x := s[1..m], s[m..];
    HoleShape(s, declared);
    assert s[1..] == u + x;
    ExpandPlain(u, x, ctx);
    if Expand(x, ctx).Ok? {
      Assoc(['{'], u, Expand(x, ctx).value);
    }
  }

  /** Conservation: the expanded text has the template's parameters plus the planted ones. */
  lemma {:induction false} ExpandedHoles(s: string, ctx: Context, declared: set<string>)
    requires Expand(s, ctx).Ok?
    ensures HoleCount(Expand(s, ctx).value, declared) == |Holes(Template(s, declared))| + Planted(s, ctx, declared)
    decreases |s|
  {
    hide ParamLen, ParamName, Opens, PrintList, ListHoles, HoleCount, Named;
    if s == "" {
      CountNothing(declared);
    } else if RefLen(s) > 0 {
      var cells, rest := Lookup(StepName(s), ColumnName(s), ctx).value, s[RefLen(s)..];
      ExpandedHoles(rest, ctx, declared);
      CountList(cells, Expand(rest, ctx).value, declared);
    } else if HoleLen(s, declared) > 0 {
      var m := HoleLen(s, declared);
      HoleShape(s, declared);
      HoleExpanded(s, ctx, declared);
      ExpandedHoles(s[m..], ctx, declared);
      var e := Expand(s[m..], ctx).value;
      HoleOpens(s, e, declared);
      Assoc(['{'], s[1..m], e);
      CountStep('{', s[1..m] + e, declared);
      CountPlain(s[1..m], e, declared);
      assert s[1..] == s[1..m] + s[m..];
      PlantedPlain(s[1..m], s[m..], ctx, declared);
    } else {
      ExpandedHoles(s[1..], ctx, declared);
      CountStep(s[0], Expand(s[1..], ctx).value, declared);
    }
  }

  lemma {:induction false} CountGrows(p: string, rest: string, declared: set<string>)
    ensures HoleCount(p + rest, declared) >= HoleCount(rest, declared)
  {
    hide HoleLen;
    if p == "" {
      assert p + rest == rest;
    } else {
      assert (p + rest)[1..] == p[1..] + rest;
      CountGrows(p[1..], rest, declared);
    }
  }

  /** Text that adds no match is cut into its characters. */
  lemma {:induction false} PartsOver(p: string, rest: string, declared: set<string>)
    requires HoleCount(p + rest, declared) == HoleCount(rest, declared)
    ensures Parts(p + rest, declared) == Chars(p) + Parts(rest, declared)
  {
    hide HoleLen;
    if p == "" {
      assert p + rest == rest;
    } else {
      assert (p + rest)[1..] == p[1..] + rest;
      CountGrows(p[1..], rest, declared);
      PartsOver(p[1..], rest, declared);
      Assoc([Chr(p[0])], Chars(p[1..]), Parts(rest, declared));
    }
  }

  lemma {:induction false} FlattenedHoles(ps: seq<Piece>, ctx: Context)
    ensures Holes(Flatten(ps, ctx)) == Holes(ps)
  {
    if ps != [] {
      FlattenedHoles(ps[1..], ctx);
      HolesAppend(if ps[0].Ref? then Chars(Data(ps[0].step, ps[0].column, ctx)) else [ps[0]], Flatten(ps[1..], ctx));
    }
  }

  lemma {:induction false} FlattenedText(ps: seq<Piece>, ctx: Context)
    ensures Marked(Flatten(ps, ctx), map[]) == Marked(ps, ctx)
  {
    hide Data;
    if ps != [] {
      FlattenedText(ps[1..], ctx);
      var head := if ps[0].Ref? then Chars(Data(ps[0].step, ps[0].column, ctx)) else [ps[0]];
      MarkedAppend(head, Flatten(ps[1..], ctx), map[]);
      if ps[0].Ref? {
        MarkedChars(Data(ps[0].step, ps[0].column, ctx), map[]);
      }
    }
  }

  /** With nothing planted, cutting the expanded text finds the template's own pieces. */
  lemma {:induction false} UnplantedParts(s: string, ctx: Context, declared: set<string>)
    requires Expand(s, ctx).Ok? && Planted(s, ctx, declared) == 0
    ensures Parts(Expand(s, ctx).value, declared) == Flatten(Template(s, declared), ctx)
    decreases |s|
  {
    hide ParamLen, ParamName, Opens, Named, PrintList, ListHoles, HoleCount, StepName, ColumnName;
    if s == "" {
    } else if RefLen(s) > 0 {
      var cells, rest := Lookup(StepName(s), ColumnName(s), ctx).value, s[RefLen(s)..];
      UnplantedParts(rest, ctx, declared);
      CountList(cells, Expand(rest, ctx).value, declared);
      PartsOver(PrintList(cells), Expand(rest, ctx).value, declared);
    } else if HoleLen(s, declared) > 0 {
      var m := HoleLen(s, declared);
      HoleShape(s, declared);
      HoleExpanded(s, ctx, declared);
      assert s[1..] == s[1..m] + s[m..];
      PlantedPlain(s[1..m], s[m..], ctx, declared);
      UnplantedParts(s[m..], ctx, declared);
      HoleKept(s, Expand(s[m..], ctx).value, declared);
    } else {
      UnplantedParts(s[1..], ctx, declared);
      var e := Expand(s[1..], ctx).value;
      OpensIsHole(e, declared);
      assert ([s[0]] + e)[1..] == e;
    }
  }

  lemma HoleKept(s: string, e: string, declared: set<string>)
    requires HoleLen(s, declared) > 0
    ensures var m := HoleLen(s, declared);
      Parts(s[..m] + e, declared) == [Hole(ParamName(s))] + Parts(e, declared)
  {
    var m := HoleLen(s, declared);
    hide ParamLen, Opens, Named;
    HoleShape(s, declared);
    HoleOpens(s, e, declared);
    var whole := s[..m] + e;
    Assoc(['{'], s[1..m], e);
    OpensIsHole(s[1..m] + e, declared);
    assert whole[m..] == e;
  }

  /** Expanding and then looking for parameters finds exactly the template's own pieces
      if and only if the expansion plants none. */
  lemma ExpandThenCut(s: string, ctx: Context, declared: set<string>)
    requires Expand(s, ctx).Ok?
    ensures Parts(Expand(s, ctx).value, declared) == Flatten(Template(s, declared), ctx)
      <==> Planted(s, ctx, declared) == 0
  {
    if Planted(s, ctx, declared) == 0 {
      UnplantedParts(s, ctx, declared);
    } else {
      ExpandedHoles(s, ctx, declared);
      PartsCount(Expand(s, ctx).value, declared);
      FlattenedHoles(Template(s, declared), ctx);
    }
  }

  lemma {:induction false} TemplateDeclared(s: string, declared: set<string>)
    ensures forall i :: 0 <= i < |Holes(Template(s, declared))| ==> Holes(Template(s, declared))[i] in declared
    decreases |s|
  {
    hide ParamLen, RefLen;
    if s != "" {
      var n := if RefLen(s) > 0 then RefLen(s) else if HoleLen(s, declared) > 0 then HoleLen(s, declared) else 1;
      TemplateDeclared(s[n..], declared);
    }
  }

  /** References and parameters replaced in one pass over the template. */
  function Simultaneous(js: Js, s: string, ctx: Context, args: map<string, Value>,
          defs: map<string, ParamDef>): Result<Substituted, TemplateError> {
    TemplateDeclared(s, defs.Keys);
    match Arguments(js, Holes(Template(s, defs.Keys)), args, defs)
    case Err(e) => Err(e)
    case Ok(vs) => Ok(Substituted(Marked(Template(s, defs.Keys), ctx), vs))
  }

  /** Expanding first and substituting afterwards is simultaneous substitution when nothing is planted;
      when something is, the two differ for every argument list the template accepts. */
  lemma ExpandThenSubstitute(js: Js, s: string, ctx: Context, args: map<string, Value>, defs: map<string, ParamDef>)
    requires Expand(s, ctx).Ok?
    ensures Planted(s, ctx, defs.Keys) == 0 ==>
      Substitute(js, Expand(s, ctx).value, args, defs) == Simultaneous(js, s, ctx, args, defs)
    ensures Simultaneous(js, s, ctx, args, defs).Ok? && Planted(s, ctx, defs.Keys) > 0 ==>
      Substitute(js, Expand(s, ctx).value, args, defs) != Simultaneous(js, s, ctx, args, defs)
  {
    var D, e := defs.Keys, Expand(s, ctx).value;
    var t, p := Template(s, D), Parts(e, D);
    HolesDeclared(e, D);
    TemplateDeclared(s, D);
    if Planted(s, ctx, D) == 0 {
      UnplantedParts(s, ctx, D);
      FlattenedHoles(t, ctx);
      FlattenedText(t, ctx);
    } else if Substitute(js, e, args, defs).Ok? && Simultaneous(js, s, ctx, args, defs).Ok? {
      ExpandedHoles(s, ctx, D);
      PartsCount(e, D);
      ArgumentsLength(js, Holes(p), args, defs);
      ArgumentsLength(js, Holes(t), args, defs);
    }
  }

  /** In the text itself: after plain text, `{step.column}` becomes a list that reads back as that column, and
      what follows is expanded in turn. */
  lemma ReferenceExpands(p: string, step: string, column: string, rest: string, ctx: Context)
    requires '{' !in p && IsWord(step) && IsWord(column)
    requires Expand(p + (['{'] + (step + (['.'] + (column + (['}'] + rest))))), ctx).Ok?
    ensures Expand(rest, ctx).Ok? && step in ctx
    ensures exists text, cells ::
      && Expand(p + (['{'] + (step + (['.'] + (column + (['}'] + rest))))), ctx).value
         == p + (text + Expand(rest, ctx).value)
      && LexList(text) == Some(cells) && IsColumn(cells, ctx[step], column)
  {
    hide *;
    var s := ['{'] + (step + (['.'] + (column + (['}'] + rest))));
    ExpandPlain(p, s, ctx);
    WordsAreNames(s, step, column, rest);
    PrependOk(p, Expand(s, ctx));
    ReferenceReadsBack(s, ctx);
    var text, cells :| Expand(s, ctx).value == text + Expand(s[RefLen(s)..], ctx).value
      && LexList(text) == Some(cells) && IsColumn(cells, ctx[step], column);
    AfterReference(step, column, rest);
  }

  lemma PrependOk(p: string, r: Result<string, TemplateError>)
    requires Prepend(p, r).Ok?
    ensures r.Ok? && Prepend(p, r).value == p + r.value
  {
  }

  lemma AfterReference(step: string, column: string, rest: string)
    ensures (['{'] + (step + (['.'] + (column + (['}'] + rest)))))[|step| + |column| + 3..] == rest
  {
  }

  // ---------------------------------------------------------------------
  // When nothing is planted
  // ---------------------------------------------------------------------

  /** Whether an identifier that starts w runs straight into a reference. */
  predicate RunsIntoRef(w: string) {
    var n := IdentRun(w);
    0 < n < |w| && IsIdentStart(w[0]) && RefLen(w[n..]) > 0
  }

  /** No reference of the template stands right behind `{name`. */
  predicate PlainEdges(s: string)
    decreases |s|
  {
    if s == "" then true
    else if RefLen(s) > 0 then PlainEdges(s[RefLen(s)..])
    else !(s[0] == '{' && RunsIntoRef(s[1..])) && PlainEdges(s[1..])
  }

  /** No string of a referenced column spells out a declared parameter. */
  predicate PlainCells(s: string, ctx: Context, declared: set<string>)
    requires Expand(s, ctx).Ok?
    decreases |s|
  {
    if s == "" then true
    else if RefLen(s) > 0 then
      ListHoles(Lookup(StepName(s), ColumnName(s), ctx).value, declared) == 0
        && PlainCells(s[RefLen(s)..], ctx, declared)
    else PlainCells(s[1..], ctx, declared)
  }

  lemma PrintedStart(cells: seq<Cell>)
    requires cells != [] && Other !in cells
    ensures PrintList(cells) != "" && PrintList(cells)[0] !in {'?', '|', '&', '{'} && !IsIdentStart(PrintList(cells)[0])
  {
  }

  /** A brace that opens no parameter of the template opens none of the expanded text. */
  lemma EdgeStaysClosed(w: string, ctx: Context, declared: set<string>)
    requires Expand(w, ctx).Ok? && !RunsIntoRef(w) && !Opens(w, declared)
    ensures !Opens(Expand(w, ctx).value, declared)
  {
    hide PrintList, RefLen, StepName, ColumnName, Lookup;
    var n, e := IdentRun(w), Expand(w, ctx).value;
    if w == "" {
    } else if RefLen(w) > 0 {
      PrintedStart(Lookup(StepName(w), ColumnName(w), ctx).value)
        by { assert Lookup(StepName(w), ColumnName(w), ctx).Ok?; }
    } else if n > 0 && IsIdentStart(w[0]) {
      NameExpanded(w, ctx);
    }
  }

  /** The name that starts w, and the character that ends it, survive expansion. */
  lemma NameExpanded(w: string, ctx: Context)
    requires Expand(w, ctx).Ok? && !RunsIntoRef(w) && IdentRun(w) > 0 && IsIdentStart(w[0])
    ensures Named(Expand(w, ctx).value) == Named(w)
  {
    hide RefLen, StepName, ColumnName, Lookup;
    var n, e := IdentRun(w), Expand(w, ctx).value;
    var p, rest := w[..n], w[n..];
    assert w == p + rest;
    ExpandPlain(p, rest, ctx);
    if rest == "" {
      assert p + "" == w;
    } else {
      var tail := Expand(rest[1..], ctx).value;
      assert Expand(rest, ctx).value == [rest[0]] + tail;
      RunOver(p, [rest[0]] + tail);
      assert e[..n] == p && e[n] == w[n] && e[0] == p[0];
    }
  }

  lemma {:induction false} RunOver(p: string, rest: string)
    requires forall i :: 0 <= i < |p| ==> IsIdentChar(p[i])
    requires rest != "" && !IsIdentChar(rest[0])
    ensures IdentRun(p + rest) == |p|
  {
    if p == "" {
      assert p + rest == rest;
    } else {
      assert (p + rest)[1..] == p[1..] + rest;
      RunOver(p[1..], rest);
    }
  }

  /** Two conditions on template and data that rule planted parameters out. */
  lemma {:induction false} PlainPlantsNothing(s: string, ctx: Context, declared: set<string>)
    requires Expand(s, ctx).Ok? && PlainEdges(s) && PlainCells(s, ctx, declared)
    ensures Planted(s, ctx, declared) == 0
    decreases |s|
  {
    hide ParamLen, ParamName, ListHoles, StepName, ColumnName, RunsIntoRef, Opens;
    if s == "" {
    } else if RefLen(s) > 0 {
      PlainPlantsNothing(s[RefLen(s)..], ctx, declared);
    } else {
      PlainPlantsNothing(s[1..], ctx, declared);
      if s[0] == '{' && HoleLen(s, declared) == 0 {
        assert s == ['{'] + s[1..];
        OpensIsHole(s[1..], declared);
        EdgeStaysClosed(s[1..], ctx, declared);
      }
    }
  }

  /** A reference alone: `{s.c}}` with the value 1 becomes `1}` and plants nothing by itself. */
  lemma ReferenceAlone(r: string, ctx: Context, declared: set<string>)
    requires r == "{s.c}}" && ctx == map["s" := QueryResult(["c"], [[Number("1")]])]
    ensures RefLen(r) == 5
    ensures Expand(r, ctx).Ok? && Expand(r, ctx).value == ['1', '}']
    ensures Planted(r, ctx, declared) == 0 && PlainCells(r, ctx, declared)
  {
    hide Lookup, PrintList, ListHoles, Opens, HoleLen;
    ReferenceShape(r);
    var close := r[5..];
    assert close == ['}'] && close[1..] == [];
    ExampleCells(ctx, declared);
    assert RefLen(close) == 0;
    assert Expand(close[1..], ctx) == Ok([]);
    assert Expand(close, ctx).value == ['}'];
    assert Planted(close[1..], ctx, declared) == 0;
    assert Planted(close, ctx, declared) == 0;
    assert PlainCells(close[1..], ctx, declared) && PlainCells(close, ctx, declared);
  }

  lemma ReferenceShape(r: string)
    requires r == "{s.c}}"
    ensures RefLen(r) == 5 && StepName(r) == "s" && ColumnName(r) == "c"
  {
    var u, v := r[1..], r[3..];
    assert u == ['s', '.', 'c', '}', '}'] && v == ['c', '}', '}'];
    assert IdentRun(u[1..]) == 0 && IdentRun(u) == 1;
    assert IdentRun(v[1..]) == 0 && IdentRun(v) == 1;
    assert r[1..2] == "s" && r[3..4] == "c";
  }

  lemma ExampleCells(ctx: Context, declared: set<string>)
    requires ctx == map["s" := QueryResult(["c"], [[Number("1")]])]
    ensures Lookup("s", "c", ctx) == Ok([Number("1")])
    ensures PrintList([Number("1")]) == ['1'] && ListHoles([Number("1")], declared) == 0
  {
    assert ColumnCells([[Number("1")]], 0) == [Number("1")];
    assert [Number("1")][1..] == [];
  }

  /** Without the condition on edges a number is enough: `{x{s.c}}` with the value 1 becomes `{x1}`. */
  lemma PlantedByNumber(s: string, ctx: Context)
    requires s == "{x{s.c}}" && ctx == map["s" := QueryResult(["c"], [[Number("1")]])]
    ensures Expand(s, ctx).Ok? && Expand(s, ctx).value == "{x1}"
    ensures PlainCells(s, ctx, {"x1"})
    ensures Planted(s, ctx, {"x1"}) == 1
  {
    hide RefLen, IdentRun, Lookup, PrintList, ListHoles, Opens, ParamLen, StepName, ColumnName;
    var w, r := s[1..], s[2..];
    ReferenceAlone(r, ctx, {"x1"});
    assert w == ['x'] + r;
    ExpandPlain(['x'], r, ctx);
    PlantedPlain(['x'], r, ctx, {"x1"});
    var e := Expand(w, ctx).value;
    assert e == ['x', '1', '}'];
    ExampleEdge(s, e);
    assert w[1..] == r && RefLen(w) == 0;
    assert PlainCells(w, ctx, {"x1"});
  }

  lemma ExampleEdge(s: string, e: string)
    requires s == "{x{s.c}}" && e == ['x', '1', '}']
    ensures Opens(e, {"x1"})
    ensures ParamLen(s) == 0 && RefLen(s) == 0
  {
    assert IdentRun(e[1..][1..]) == 0 && IdentRun(e[1..]) == 1 && IdentRun(e) == 2;
    assert e[..2] == "x1";
    assert IdentRun(s[1..][1..]) == 0 && IdentRun(s[1..]) == 1;
  }

  // ---------------------------------------------------------------------
  // Through the translator
  // ---------------------------------------------------------------------

  /** The template's own `?` are all inside quotes and its references all outside. */
  predicate MarksQuoted(ps: seq<Piece>, inString: bool) {
    ps == [] ||
    match ps[0]
    case Chr(c) => (c == '?' ==> inString) && MarksQuoted(ps[1..], if c == '\'' then !inString else inString)
    case Hole(_) => MarksQuoted(ps[1..], inString)
    case Ref(_, _) => !inString && MarksQuoted(ps[1..], false)
  }

  /** Every parameter stands outside quotes, not after an operand, and not before `|`, `&` or another one. */
  predicate Bindable(ps: seq<Piece>, inString: bool, prev: char) {
    ps == [] ||
    match ps[0]
    case Chr(c) => Bindable(ps[1..], if c == '\'' then !inString else inString, if IsBlank(c) then prev else c)
    case Hole(_) =>
      && !inString && !EndsOperand(prev)
      && (|ps| > 1 ==> !ps[1].Hole? && ps[1] != Chr('|') && ps[1] != Chr('&'))
      && Bindable(ps[1..], false, '?')
    case Ref(_, _) => Bindable(ps[1..], false, '\'')
  }

  predicate Resolves(ps: seq<Piece>, ctx: Context) {
    ps == [] || ((ps[0].Ref? ==> Lookup(ps[0].step, ps[0].column, ctx).Ok?) && Resolves(ps[1..], ctx))
  }

  /** The tokens of a template whose k-th parameter is the k-th marker. */
  function BoundTokens(ps: seq<Piece>, ctx: Context, k: nat): seq<Token> {
    if ps == [] then []
    else
      match ps[0]
      case Chr(c) => [Verbatim([c])] + BoundTokens(ps[1..], ctx, k)
      case Hole(_) => [Numbered(k + 1)] + BoundTokens(ps[1..], ctx, k + 1)
      case Ref(step, column) => Copied(Data(step, column, ctx)) + BoundTokens(ps[1..], ctx, k)
  }

  lemma ScanRef(step: string, column: string, ctx: Context, rest: string, prev: char, k: nat) returns (last: char)
    requires Lookup(step, column, ctx).Ok?
    ensures EndsOperand(last)
    ensures Scan(Data(step, column, ctx) + rest, false, prev, k)
         == Copied(Data(step, column, ctx)) + Scan(rest, false, last, k)
  {
    var cells := Lookup(step, column, ctx).value;
    ScanList(cells, rest, prev, k);
    last := LastOf(cells[|cells| - 1]);
  }

  /** What the text of the remaining pieces can start with. */
  lemma MarkedHead(ps: seq<Piece>, ctx: Context)
    requires Resolves(ps, ctx)
    ensures ps == [] ==> Marked(ps, ctx) == ""
    ensures ps != [] ==> Marked(ps, ctx) != ""
    ensures ps != [] ==> (Marked(ps, ctx)[0] == '?' <==> ps[0].Hole? || ps[0] == Chr('?'))
    ensures ps != [] ==> (Marked(ps, ctx)[0] in {'|', '&'} <==> ps[0] == Chr('|') || ps[0] == Chr('&'))
  {
    if ps != [] && ps[0].Ref? {
      PrintedStart(Lookup(ps[0].step, ps[0].column, ctx).value);
    }
  }

  /** A bindable template scans to its own pieces, its parameters numbered in order. */
  lemma {:induction false} BindableScan(ps: seq<Piece>, ctx: Context, inString: bool, p: char, prev: char, k: nat)
    requires MarksQuoted(ps, inString) && Resolves(ps, ctx)
    requires EndsOperand(p) == EndsOperand(prev)
    requires Bindable(ps, inString, p)
    ensures Scan(Marked(ps, ctx), inString, prev, k) == BoundTokens(ps, ctx, k)
  {
    hide Lookup, Data, Copied;
    if ps != [] {
      var rest := Marked(ps[1..], ctx);
      match ps[0]
      case Chr(c) =>
        assert ([c] + rest)[1..] == rest;
        BindableScan(ps[1..], ctx, if c == '\'' then !inString else inString,
                     if IsBlank(c) then p else c, if IsBlank(c) then prev else c, k);
      case Hole(_) =>
        MarkedHead(ps[1..], ctx);
        assert ("?" + rest)[1..] == rest;
        BindableScan(ps[1..], ctx, false, '?', '?', k + 1);
      case Ref(step, column) =>
        var last := ScanRef(step, column, ctx, rest, prev, k);
        BindableScan(ps[1..], ctx, false, '\'', last, k);
    }
  }

  /** The translator never numbers more than the parameters, and numbers them all only if all are bindable. */
  lemma {:induction false} NumberedHoles(ps: seq<Piece>, ctx: Context, inString: bool, p: char, prev: char, k: nat)
    requires MarksQuoted(ps, inString) && Resolves(ps, ctx)
    requires EndsOperand(p) == EndsOperand(prev)
    ensures |Indices(Scan(Marked(ps, ctx), inString, prev, k))| <= |Holes(ps)|
    ensures |Indices(Scan(Marked(ps, ctx), inString, prev, k))| == |Holes(ps)| ==> Bindable(ps, inString, p)
    decreases |ps|, 1
  {
    hide Lookup, Data, Copied;
    if ps != [] {
      var rest := Marked(ps[1..], ctx);
      match ps[0]
      case Chr(c) =>
        assert ([c] + rest)[1..] == rest;
        NumberedHoles(ps[1..], ctx, if c == '\'' then !inString else inString,
                      if IsBlank(c) then p else c, if IsBlank(c) then prev else c, k);
      case Hole(_) =>
        NumberedHole(ps, ctx, inString, p, prev, k);
      case Ref(step, column) =>
        var last := ScanRef(step, column, ctx, rest, prev, k);
        IndicesAppend(Copied(Data(step, column, ctx)), Scan(rest, false, last, k));
        NumberedHoles(ps[1..], ctx, false, '\'', last, k);
    }
  }

  lemma {:induction false} NumberedHole(ps: seq<Piece>, ctx: Context, inString: bool, p: char, prev: char, k: nat)
    requires ps != [] && ps[0].Hole?
    requires MarksQuoted(ps, inString) && Resolves(ps, ctx)
    requires EndsOperand(p) == EndsOperand(prev)
    ensures |Indices(Scan(Marked(ps, ctx), inString, prev, k))| <= |Holes(ps)|
    ensures |Indices(Scan(Marked(ps, ctx), inString, prev, k))| == |Holes(ps)| ==> Bindable(ps, inString, p)
    decreases |ps|, 0
  {
    hide Lookup, Data, Copied, Scan;
    var rest := Marked(ps[1..], ctx);
    MarkedHead(ps[1..], ctx);
    if inString {
      ScanOther('?', rest, true, prev, k);
      NumberedHoles(ps[1..], ctx, true, '?', '?', k);
    } else if |ps| > 1 && ps[1].Hole? {
      assert ps[1..][1..] == ps[2..];
      assert "?" + ("?" + Marked(ps[2..], ctx)) == "??" + Marked(ps[2..], ctx);
      ScanPair(Marked(ps[2..], ctx), prev, k);
      NumberedHoles(ps[2..], ctx, false, '?', '?', k);
    } else {
      ScanLone(rest, prev, k);
      NumberedHoles(ps[1..], ctx, false, '?', '?', k);
      NumberedHoles(ps[1..], ctx, false, '?', '?', k + 1);
    }
  }

  lemma {:induction false} BoundIndices(ps: seq<Piece>, ctx: Context, k: nat)
    ensures |Indices(BoundTokens(ps, ctx, k))| == |Holes(ps)|
  {
    hide Data;
    if ps != [] {
      if ps[0].Ref? {
        IndicesAppend(Copied(Data(ps[0].step, ps[0].column, ctx)), BoundTokens(ps[1..], ctx, k));
      }
      BoundIndices(ps[1..], ctx, if ps[0].Hole? then k + 1 else k);
    }
  }

  /** As many markers as parameters, if and only if every parameter is bindable; and then the k-th
      marker stands exactly where the k-th parameter stood. */
  lemma MarkersMatchHoles(ps: seq<Piece>, ctx: Context)
    requires MarksQuoted(ps, false) && Resolves(ps, ctx)
    ensures |Indices(Tokens(Marked(ps, ctx)))| == |Holes(ps)| <==> Bindable(ps, false, '\0')
    ensures Bindable(ps, false, '\0') ==> Tokens(Marked(ps, ctx)) == BoundTokens(ps, ctx, 0)
  {
    NumberedHoles(ps, ctx, false, '\0', '\0', 0);
    if Bindable(ps, false, '\0') {
      BindableScan(ps, ctx, false, '\0', '\0', 0);
      BoundIndices(ps, ctx, 0);
    }
  }

  // ---------------------------------------------------------------------
  // Templates that lose markers
  // ---------------------------------------------------------------------

  lemma LoneHole(s: string, declared: set<string>)
    requires s != "" && HoleLen(s, declared) == |s|
    ensures Parts(s, declared) == [Hole(ParamName(s))]
  {
    hide HoleLen, ParamName;
    assert s[|s|..] == "";
  }

  lemma {:induction false} PlainMarks(p: string, tail: seq<Piece>)
    requires '?' !in p && '\'' !in p && MarksQuoted(tail, false)
    ensures MarksQuoted(Chars(p) + tail, false)
  {
    if p == "" {
      assert Chars(p) + tail == tail;
    } else {
      hide Chars, MarksQuoted;
      var c, rest := p[0], p[1..];
      assert p == [c] + rest && c in p && forall x :: x in rest ==> x in p;
      PlainMarks(rest, tail);
      CharsCons(c, rest);
      Assoc([Chr(c)], Chars(rest), tail);
      PlainMark(c, Chars(rest) + tail);
    }
  }

  lemma PlainMark(c: char, ps: seq<Piece>)
    requires c != '?' && c != '\'' && MarksQuoted(ps, false)
    ensures MarksQuoted([Chr(c)] + ps, false)
  {
    assert ([Chr(c)] + ps)[1..] == ps;
  }

  /** A parameter that ends a template right after an operand, blanks aside, sends a value and no marker. */
  lemma OperandLosesMarker(p: string, s: string, declared: set<string>)
    requires '{' !in p && '?' !in p && '\'' !in p && EndsOperand(Carry(p, '\0'))
    requires s != "" && HoleLen(s, declared) == |s|
    ensures var ps := Parts(p + s, declared);
      && Holes(ps) == [ParamName(s)] && MarksQuoted(ps, false) && !Bindable(ps, false, '\0')
      && Indices(Tokens(Marked(ps, map[]))) == []
  {
    hide HoleLen, ParamName, Bindable, Scan, Indices, Parts, Copied;
    var hole := [Hole(ParamName(s))];
    var ps := Parts(p + s, declared);
    PartsPlain(p, s, declared);
    LoneHole(s, declared);
    HolesAppend(Chars(p), hole);
    PlainMarks(p, hole);
    MarkedAppend(Chars(p), hole, map[]);
    MarkedChars(p, map[]);
    OneHole(ParamName(s));
    ScanPlain(p, "?", false, '\0', 0);
    KeptAlone(Carry(p, '\0'), 0);
    IndicesAppend(Copied(p), Scan("?", false, Carry(p, '\0'), 0));
    PartsResolve(p + s, declared);
    MarkersMatchHoles(ps, map[]);
  }

  lemma OneHole(name: string)
    ensures Marked([Hole(name)], map[]) == "?" && Holes([Hole(name)]) == [name] && MarksQuoted([Hole(name)], false)
  {
    assert [Hole(name)][1..] == [];
  }

  lemma KeptAlone(prev: char, k: nat)
    requires EndsOperand(prev)
    ensures Indices(Scan("?", false, prev, k)) == []
  {
    assert "?" + "" == "?";
    ScanLone("", prev, k);
  }

  /** Two parameters side by side send two values and no marker. */
  lemma AdjacentLoseMarkers(a: string, b: string, declared: set<string>)
    requires a != "" && HoleLen(a, declared) == |a| && b != "" && HoleLen(b, declared) == |b|
    ensures var ps := Parts(a + b, declared);
      && Holes(ps) == [ParamName(a), ParamName(b)] && !Bindable(ps, false, '\0')
      && Indices(Tokens(Marked(ps, map[]))) == []
  {
    hide *;
    var x, y := ParamName(a), ParamName(b);
    assert a[..|a|] == a;
    HoleKept(a, b, declared);
    LoneHole(b, declared);
    TwoHoles(x, y);
    assert [Hole(x)] + [Hole(y)] == [Hole(x), Hole(y)];
  }

  lemma TwoHoles(x: string, y: string)
    ensures var ps := [Hole(x), Hole(y)];
      Holes(ps) == [x, y] && !Bindable(ps, false, '\0') && Indices(Tokens(Marked(ps, map[]))) == []
  {
    hide Scan, Indices;
    var ps := [Hole(x), Hole(y)];
    assert ps[1..] == [Hole(y)];
    OneHole(y);
    assert "?" + "?" == "??" + "";
    ScanPair("", '\0', 0);
    NoMarkers();
  }

  lemma NoMarkers()
    ensures Indices([Verbatim("??")] + Scan("", false, '?', 0)) == []
  {
  }

  /** `LIMIT {n}` */
  lemma LimitLosesMarker(s: string)
    requires s == "LIMIT {n}"
    ensures var ps := Parts(s, {"n"});
      && Holes(ps) == ["n"] && !Bindable(ps, false, '\0') && Indices(Tokens(Marked(ps, map[]))) == []
  {
    hide Parts, Bindable, Indices, Holes, Marked, Carry, HoleLen, ParamName;
    var p, h := s[..6], s[6..];
    assert p == ['L', 'I', 'M', 'I', 'T', ' '] && s == p + h;
    LimitCarries(p);
    ShortHole(h, 'n');
    OperandLosesMarker(p, h, {"n"});
  }

  lemma LimitCarries(p: string)
    requires p == ['L', 'I', 'M', 'I', 'T', ' ']
    ensures EndsOperand(Carry(p, '\0'))
  {
    var word := p[..5];
    assert p == word + [' '];
    CarryAppend(word, [' '], '\0');
    CarryLast(word, '\0');
    assert [' '][1..] == [];
  }

  lemma {:induction false} CarryAppend(a: string, b: string, prev: char)
    ensures Carry(a + b, prev) == Carry(b, Carry(a, prev))
  {
    if a == "" {
      assert a + b == b;
    } else {
      assert (a + b)[1..] == a[1..] + b;
      CarryAppend(a[1..], b, if IsBlank(a[0]) then prev else a[0]);
    }
  }

  /** A parameter with a name of one letter. */
  lemma ShortHole(h: string, c: char)
    requires h == ['{', c, '}'] && 'a' <= c <= 'z'
    ensures HoleLen(h, {[c]}) == 3 && ParamName(h) == [c]
    ensures forall declared: set<string> :: [c] in declared ==> HoleLen(h, declared) == 3
  {
    assert IdentRun(h[1..][1..]) == 0 && IdentRun(h[1..]) == 1;
    assert h[1..2] == [c];
  }

  /** `{a}{b}` */
  lemma PairLosesMarkers(s: string)
    requires s == "{a}{b}"
    ensures var ps := Parts(s, {"a", "b"});
      && Holes(ps) == ["a", "b"] && !Bindable(ps, false, '\0') && Indices(Tokens(Marked(ps, map[]))) == []
  {
    hide Parts, Bindable, Indices, Holes, Marked, HoleLen, ParamName;
    var a, b := s[..3], s[3..];
    ShortHole(a, 'a');
    ShortHole(b, 'b');
    assert s == a + b;
    AdjacentLoseMarkers(a, b, {"a", "b"});
  }

  lemma {:induction false} ExpandResolves(s: string, ctx: Context, declared: set<string>)
    requires Expand(s, ctx).Ok?
    ensures Resolves(Template(s, declared), ctx)
    decreases |s|
  {
    hide ParamLen, ParamName, StepName, ColumnName, Lookup, PrintList, IdentRun;
    if s == "" {
    } else if RefLen(s) > 0 {
      ExpandResolves(s[RefLen(s)..], ctx, declared);
    } else if HoleLen(s, declared) > 0 {
      HoleExpanded(s, ctx, declared);
      ExpandResolves(s[HoleLen(s, declared)..], ctx, declared);
    } else {
      ExpandResolves(s[1..], ctx, declared);
    }
  }

  /** From template to driver, for an inline compose step: when the expansion plants no parameter,
      the sidecar numbers as many markers as there are values if and only if the template is bindable;
      then marker k+1 stands in the place of the template's k-th parameter, and values[k] is that
      parameter's coerced argument. */
  lemma BindingSurvives(js: Js, s: string, ctx: Context, args: map<string, Value>, defs: map<string, ParamDef>,
          style: Style)
    requires Expand(s, ctx).Ok? && Planted(s, ctx, defs.Keys) == 0
    requires Substitute(js, Expand(s, ctx).value, args, defs).Ok?
    requires MarksQuoted(Template(s, defs.Keys), false)
    ensures var ps := Template(s, defs.Keys);
      var sent := Substitute(js, Expand(s, ctx).value, args, defs).value;
      && |sent.values| == |Holes(ps)|
      && (forall k :: 0 <= k < |sent.values| ==>
            Holes(ps)[k] in defs && Argument(js, Holes(ps)[k], args, defs) == Ok(sent.values[k]))
      && (|Indices(Tokens(sent.sql))| == |sent.values| <==> Bindable(ps, false, '\0'))
      && (Bindable(ps, false, '\0') && style != Question ==>
            Translate(sent.sql, style) == Render(style, BoundTokens(ps, ctx, 0)))
  {
    hide Template, Substitute, Arguments, Argument, Bindable, MarksQuoted, BoundTokens, Resolves, Expand, Planted;
    var ps := Template(s, defs.Keys);
    ExpandThenSubstitute(js, s, ctx, args, defs);
    TemplateDeclared(s, defs.Keys);
    SimultaneousValues(js, s, ctx, args, defs);
    ExpandResolves(s, ctx, defs.Keys);
    MarkersMatchHoles(ps, ctx);
  }

  lemma SimultaneousValues(js: Js, s: string, ctx: Context, args: map<string, Value>, defs: map<string, ParamDef>)
    requires Simultaneous(js, s, ctx, args, defs).Ok?
    ensures var ps, sent := Template(s, defs.Keys), Simultaneous(js, s, ctx, args, defs).value;
      && sent.sql == Marked(ps, ctx)
      && |sent.values| == |Holes(ps)|
      && (forall k :: 0 <= k < |sent.values| ==>
            Holes(ps)[k] in defs && Argument(js, Holes(ps)[k], args, defs) == Ok(sent.values[k]))
  {
    hide Template, Argument, Arguments;
    var ps := Template(s, defs.Keys);
    TemplateDeclared(s, defs.Keys);
    ArgumentsLength(js, Holes(ps), args, defs);
    forall k | 0 <= k < |Holes(ps)|
      ensures Argument(js, Holes(ps)[k], args, defs) == Ok(Arguments(js, Holes(ps), args, defs).value[k])
    {
      ArgumentAt(js, Holes(ps), args, defs, k);
    }
  }

  lemma {:induction false} PartsResolve(s: string, declared: set<string>)
    ensures Resolves(Parts(s, declared), map[])
    decreases |s|
  {
    hide ParamLen, ParamName;
    if s != "" {
      PartsResolve(s[if HoleLen(s, declared) > 0 then HoleLen(s, declared) else 1..], declared);
    }
  }

  /** The same for a tool's own SQL, which has no references to expand. */
  lemma PlainBindingSurvives(js: Js, sql: string, args: map<string, Value>, defs: map<string, ParamDef>, style: Style)
    requires Substitute(js, sql, args, defs).Ok?
    requires MarksQuoted(Parts(sql, defs.Keys), false)
    ensures var ps, sent := Parts(sql, defs.Keys), Substitute(js, sql, args, defs).value;
      && |sent.values| == |Holes(ps)|
      && (forall k :: 0 <= k < |sent.values| ==>
            Holes(ps)[k] in defs && Argument(js, Holes(ps)[k], args, defs) == Ok(sent.values[k]))
      && (|Indices(Tokens(sent.sql))| == |sent.values| <==> Bindable(ps, false, '\0'))
      && (Bindable(ps, false, '\0') && style != Question ==>
            Translate(sent.sql, style) == Render(style, BoundTokens(ps, map[], 0)))
  {
    hide Parts, Argument, Arguments, Bindable, MarksQuoted, BoundTokens, Resolves;
    var ps := Parts(sql, defs.Keys);
    HolesDeclared(sql, defs.Keys);
    ArgumentsLength(js, Holes(ps), args, defs);
    forall k | 0 <= k < |Holes(ps)|
      ensures Argument(js, Holes(ps)[k], args, defs) == Ok(Arguments(js, Holes(ps), args, defs).value[k])
    {
      ArgumentAt(js, Holes(ps), args, defs, k);
    }
    PartsResolve(sql, defs.Keys);
    MarkersMatchHoles(ps, map[]);
  }
}

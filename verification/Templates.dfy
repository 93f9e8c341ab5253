/**
  SQL templates on the TypeScript side: `{param}` substitution (src/custom-tools.ts) and
  `{step.column}` expansion (src/compose-expander.ts). The two regular expressions are
  written out as leftmost scanners over characters.
*/
module Templates {
  import opened Common
  import opened Placeholders

  // ---------------------------------------------------------------------
  // The two patterns
  // ---------------------------------------------------------------------

  predicate IsIdentStart(c: char) {
    'a' <= c <= 'z' || 'A' <= c <= 'Z' || c == '_'
  }

  /** Length of the longest run of identifier characters that starts s. */
  function IdentRun(s: string): (n: nat)
    ensures n <= |s|
    ensures forall i :: 0 <= i < n ==> IsIdentChar(s[i])
    ensures n < |s| ==> !IsIdentChar(s[n])
  {
    if s == "" || !IsIdentChar(s[0]) then 0 else 1 + IdentRun(s[1..])
  }

  /** Length of the `{name}` that starts s, 0 if none does. */
  function ParamLen(s: string): (m: nat)
    ensures m <= |s|
    ensures m > 0 ==> m >= 3 && s[0] == '{' && forall i :: 1 <= i < m ==> s[i] != '{'
  {
    if |s| >= 3 && s[0] == '{' && IsIdentStart(s[1]) then
      var n := IdentRun(s[1..]);
      if n + 1 < |s| && s[n + 1] == '}' then
        assert forall i :: 1 <= i < n + 1 ==> s[i] == s[1..][i - 1];
        n + 2
      else 0
    else 0
  }

  /** Length of the `{step.column}` that starts s, 0 if none does. */
  function RefLen(s: string): (m: nat)
    ensures m <= |s|
    ensures m > 0 ==> s[0] == '{' && ParamLen(s) == 0
  {
    if |s| >= 5 && s[0] == '{' && IsIdentStart(s[1]) then
      var n := IdentRun(s[1..]);
      if n + 2 < |s| && s[n + 1] == '.' && IsIdentStart(s[n + 2]) then
        var c := IdentRun(s[n + 2..]);
        if n + 2 + c < |s| && s[n + 2 + c] == '}' then n + c + 3 else 0
      else 0
    else 0
  }

  function ParamName(s: string): string
    requires ParamLen(s) > 0
  {
    s[1..ParamLen(s) - 1]
  }

  function StepName(s: string): string
    requires RefLen(s) > 0
  {
    s[1..IdentRun(s[1..]) + 1]
  }

  function ColumnName(s: string): string
    requires RefLen(s) > 0
  {
    s[IdentRun(s[1..]) + 2..RefLen(s) - 1]
  }

  /** A match whose name is declared; an undeclared `{name}` is left in place. */
  function HoleLen(s: string, declared: set<string>): (m: nat)
    ensures m <= |s|
    ensures m > 0 ==> m == ParamLen(s) && ParamName(s) in declared
  {
    if ParamLen(s) > 0 && ParamName(s) in declared then ParamLen(s) else 0
  }

  /** An identifier, letter by letter. */
  predicate IsWord(s: string) {
    && s != "" && !('0' <= s[0] <= '9')
    && forall i :: 0 <= i < |s| ==> 'a' <= s[i] <= 'z' || 'A' <= s[i] <= 'Z' || '0' <= s[i] <= '9' || s[i] == '_'
  }

  lemma {:induction false} RunOfWord(w: string, rest: string)
    requires forall i :: 0 <= i < |w| ==> IsIdentChar(w[i])
    requires rest == "" || !IsIdentChar(rest[0])
    ensures IdentRun(w + rest) == |w|
  {
    if w == "" {
      assert w + rest == rest;
    } else {
      assert (w + rest)[1..] == w[1..] + rest;
      RunOfWord(w[1..], rest);
    }
  }

  /** A run of identifier characters ends before the first dot or brace. */
  lemma WordEnds(w: string, name: string, c: char, rest: string)
    requires w == name + ([c] + rest) && c in {'.', '}'} && c !in name
    requires IdentRun(w) < |w| && w[IdentRun(w)] == c
    ensures IdentRun(w) == |name| && forall i :: 0 <= i < |name| ==> IsIdentChar(name[i])
  {
    var n := IdentRun(w);
    hide IdentRun;
    assert w[|name|] == c;
    assert forall i :: 0 <= i < |name| ==> w[i] == name[i];
  }

  lemma NameIsWord(s: string, name: string, rest: string)
    requires s == ['{'] + (name + (['}'] + rest)) && '}' !in name && ParamLen(s) > 0
    ensures IsWord(name)
  {
    hide IdentRun;
    assert s[1..] == name + (['}'] + rest);
    var n := IdentRun(s[1..]);
    assert s[1..][n] == s[n + 1];
    WordEnds(s[1..], name, '}', rest);
    assert s[1] == s[1..][0];
  }

  lemma WordIsName(s: string, name: string, rest: string)
    requires s == ['{'] + (name + (['}'] + rest)) && IsWord(name)
    ensures ParamLen(s) == |name| + 2 && ParamName(s) == name
  {
    hide IdentRun;
    assert s[1..] == name + (['}'] + rest);
    RunOfWord(name, ['}'] + rest);
    assert s[1] == s[1..][0] == name[0];
    assert s[|name| + 1] == s[1..][|name|] == '}';
    assert s[1..|name| + 1] == name;
  }

  /** A text starts with a parameter exactly when it is an opening brace, a word, a closing brace and the
      rest; and that word is the parameter's name. */
  lemma ParamMeans(s: string, name: string, rest: string)
    requires s == ['{'] + (name + (['}'] + rest)) && '}' !in name
    ensures ParamLen(s) > 0 <==> IsWord(name)
    ensures IsWord(name) ==> ParamLen(s) == |name| + 2 && ParamName(s) == name
  {
    hide *;
    if ParamLen(s) > 0 {
      NameIsWord(s, name, rest);
    }
    if IsWord(name) {
      WordIsName(s, name, rest);
    }
  }

  lemma NamesAreWords(s: string, step: string, column: string, rest: string)
    requires s == ['{'] + (step + (['.'] + (column + (['}'] + rest))))
    requires '.' !in step && '}' !in column && RefLen(s) > 0
    ensures IsWord(step) && IsWord(column)
  {
    hide IdentRun;
    var u := s[1..];
    assert u == step + (['.'] + (column + (['}'] + rest)));
    var n := IdentRun(u);
    assert u[n] == s[n + 1];
    WordEnds(u, step, '.', column + (['}'] + rest));
    var v := s[n + 2..];
    assert v == u[n + 1..] == column + (['}'] + rest);
    assert v[IdentRun(v)] == s[n + 2 + IdentRun(v)];
    WordEnds(v, column, '}', rest);
    assert s[1] == u[0] && s[n + 2] == v[0];
  }

  lemma WordThen(w: string, name: string, c: char, rest: string)
    requires w == name + ([c] + rest) && IsWord(name) && c in {'.', '}'}
    ensures 0 < IdentRun(w) == |name| < |w| && IsIdentStart(w[0]) && w[|name|] == c
    ensures w[..|name|] == name && w[|name| + 1..] == rest
  {
    hide IdentRun;
    RunOfWord(name, [c] + rest);
    assert w[0] == name[0];
  }

  lemma WordsAreNames(s: string, step: string, column: string, rest: string)
    requires s == ['{'] + (step + (['.'] + (column + (['}'] + rest)))) && IsWord(step) && IsWord(column)
    ensures RefLen(s) == |step| + |column| + 3 && StepName(s) == step && ColumnName(s) == column
  {
    hide *;
    var v := column + (['}'] + rest);
    var u := step + (['.'] + v);
    WordThen(u, step, '.', v);
    WordThen(v, column, '}', rest);
    assert s[0] == '{' && s[1..] == u;
    RefAtOffsets(s, u, v, |step|, |column|);
  }

  lemma RefAtOffsets(s: string, u: string, v: string, n: nat, c: nat)
    requires s != "" && s[0] == '{' && u == s[1..] && 0 < n < |u| && v == u[n + 1..] && 0 < c < |v|
    requires IdentRun(u) == n && u[n] == '.' && IsIdentStart(u[0])
    requires IdentRun(v) == c && v[c] == '}' && IsIdentStart(v[0])
    ensures RefLen(s) == n + c + 3 && StepName(s) == u[..n] && ColumnName(s) == v[..c]
  {
    hide IdentRun, IsIdentStart;
    assert v == s[n + 2..];
    assert s[1] == u[0] && s[n + 1] == u[n] && s[n + 2] == v[0] && s[n + 2 + c] == v[c];
  }

  /** A text starts with a reference exactly when it is an opening brace, two words with a dot between them, a
      closing brace and the rest; the words are the step's name and the column's. */
  lemma RefMeans(s: string, step: string, column: string, rest: string)
    requires s == ['{'] + (step + (['.'] + (column + (['}'] + rest)))) && '.' !in step && '}' !in column
    ensures RefLen(s) > 0 <==> IsWord(step) && IsWord(column)
    ensures IsWord(step) && IsWord(column) ==>
      RefLen(s) == |step| + |column| + 3 && StepName(s) == step && ColumnName(s) == column
  {
    hide *;
    if RefLen(s) > 0 {
      NamesAreWords(s, step, column, rest);
    }
    if IsWord(step) && IsWord(column) {
      WordsAreNames(s, step, column, rest);
    }
  }

  // ---------------------------------------------------------------------
  // Parameters
  // ---------------------------------------------------------------------

  datatype Value = Undefined | Null | Bool(b: bool) | Num(numeral: string) | Str(s: string) | Obj(id: nat)

  datatype ParamType = StringType | NumberType | BooleanType | EnumType | OtherType

  /** `optional` stands for `required === false`. */
  datatype ParamDef = ParamDef(kind: ParamType, optional: bool, default: Value, values: seq<string>)

  /** JavaScript's conversions, which are not written out: String, Number (None for NaN), toLowerCase. */
  datatype Js = Js(toStr: Value -> string, toNum: Value -> Option<string>, lower: string -> string)

  datatype TemplateError =
    | InvalidParameter(name: string)
    | StepNotFound(step: string)
    | ColumnNotFound(step: string, column: string)
    | NoRows(step: string)
    | UnsupportedType(step: string, column: string)

  predicate Truthy(v: Value) {
    match v
    case Undefined => false
    case Null => false
    case Bool(b) => b
    case Num(n) => n != "0"
    case Str(s) => s != ""
    case Obj(_) => true
  }

  function Coerce(js: Js, name: string, v: Value, def: ParamDef): Result<Value, TemplateError> {
    match def.kind
    case StringType => Ok(Str(js.toStr(v)))
    case NumberType => (match js.toNum(v) case None => Err(InvalidParameter(name)) case Some(n) => Ok(Num(n)))
    case BooleanType => Ok(Bool(if v.Str? then js.lower(v.s) == "true" else Truthy(v)))
    case EnumType => if js.toStr(v) in def.values then Ok(Str(js.toStr(v))) else Err(InvalidParameter(name))
    case OtherType => Ok(v)
  }

  /** The coerced argument for one declared parameter, its default standing in when it was left out. */
  function Argument(js: Js, name: string, args: map<string, Value>, defs: map<string, ParamDef>): Result<Value,
          TemplateError>
    requires name in defs
  {
    var given := if name in args then args[name] else Undefined;
    var v := if given == Undefined && defs[name].optional then defs[name].default else given;
    Coerce(js, name, v, defs[name])
  }

  /** What is sent for a parameter, spelled out: the default stands in for a missing argument only of a parameter
      that may be left out; a string stands for true only if it reads "true" in lower case, any other value
      unless it is undefined, null, false or zero; the only failures are NaN and a value not listed. */
  lemma ArgumentMeans(js: Js, name: string, args: map<string, Value>, defs: map<string, ParamDef>, v: Value)
    requires name in defs
    requires v ==
      if name in args && args[name] != Undefined then args[name]
      else if defs[name].optional then defs[name].default
      else Undefined
    ensures var r, kind := Argument(js, name, args, defs), defs[name].kind;
      && (r.Err? <==>
            || (kind == NumberType && js.toNum(v) == None)
            || (kind == EnumType && js.toStr(v) !in defs[name].values))
      && (r.Err? ==> r.error == InvalidParameter(name))
      && (r.Ok? && (kind == StringType || kind == EnumType) ==> r.value == Str(js.toStr(v)))
      && (r.Ok? && kind == NumberType ==> js.toNum(v) == Some(r.value.numeral) && r.value.Num?)
      && (kind == BooleanType && v.Str? ==> r == Ok(Bool(js.lower(v.s) == "true")))
      && (kind == BooleanType && !v.Str? ==> r == Ok(Bool(v !in {Undefined, Null, Bool(false), Num("0")})))
      && (kind == OtherType ==> r == Ok(v))
  {
  }

  /** Arguments for a list of names, the leftmost failure winning. */
  function Arguments(js: Js, names: seq<string>, args: map<string, Value>,
          defs: map<string, ParamDef>): Result<seq<Value>, TemplateError>
    requires forall i :: 0 <= i < |names| ==> names[i] in defs
  {
    if names == [] then Ok([])
    else
      match Argument(js, names[0], args, defs)
      case Err(e) => Err(e)
      case Ok(v) =>
        match Arguments(js, names[1..], args, defs)
        case Err(e) => Err(e)
        case Ok(vs) => Ok([v] + vs)
  }

  // ---------------------------------------------------------------------
  // Templates as pieces
  // ---------------------------------------------------------------------

  datatype Piece = Chr(c: char) | Hole(name: string) | Ref(step: string, column: string)

  /** s cut at its declared parameters. */
  function Parts(s: string, declared: set<string>): seq<Piece>
    decreases |s|
  {
    if s == "" then []
    else
      var m := HoleLen(s, declared);
      if m > 0 then [Hole(ParamName(s))] + Parts(s[m..], declared)
      else [Chr(s[0])] + Parts(s[1..], declared)
  }

  /** s cut at its references and its declared parameters in one pass. */
  function Template(s: string, declared: set<string>): seq<Piece>
    decreases |s|
  {
    if s == "" then []
    else
      var r := RefLen(s);
      var m := HoleLen(s, declared);
      if r > 0 then [Ref(StepName(s), ColumnName(s))] + Template(s[r..], declared)
      else if m > 0 then [Hole(ParamName(s))] + Template(s[m..], declared)
      else [Chr(s[0])] + Template(s[1..], declared)
  }

  function HolesOf(p: Piece): seq<string> {
    if p.Hole? then [p.name] else []
  }

  function Holes(ps: seq<Piece>): seq<string> {
    if ps == [] then [] else HolesOf(ps[0]) + Holes(ps[1..])
  }

  function Chars(s: string): (ps: seq<Piece>)
    ensures |ps| == |s|
    ensures Holes(ps) == []
  {
    if s == "" then [] else [Chr(s[0])] + Chars(s[1..])
  }

  lemma {:induction false} HolesAppend(a: seq<Piece>, b: seq<Piece>)
    ensures Holes(a + b) == Holes(a) + Holes(b)
  {
    if a == [] {
      assert a + b == b;
    } else {
      assert (a + b)[0] == a[0] && (a + b)[1..] == a[1..] + b;
      HolesAppend(a[1..], b);
      Assoc(HolesOf(a[0]), Holes(a[1..]), Holes(b));
    }
  }

  lemma {:induction false} HolesDeclared(s: string, declared: set<string>)
    ensures forall i :: 0 <= i < |Holes(Parts(s, declared))| ==> Holes(Parts(s, declared))[i] in declared
    decreases |s|
  {
    if s != "" {
      HolesDeclared(s[if HoleLen(s, declared) > 0 then HoleLen(s, declared) else 1..], declared);
    }
  }

  /** Text without an opening brace holds no parameter of its own. */
  lemma {:induction false} PartsPlain(p: string, rest: string, declared: set<string>)
    requires '{' !in p
    ensures Parts(p + rest, declared) == Chars(p) + Parts(rest, declared)
  {
    if p == "" {
      assert p + rest == rest;
    } else {
      hide ParamName;
      assert (p + rest)[1..] == p[1..] + rest;
      assert (p + rest)[0] == p[0] != '{';
      PartsPlain(p[1..], rest, declared);
      Assoc([Chr(p[0])], Chars(p[1..]), Parts(rest, declared));
    }
  }

  /** What a substituted template reads like: every hole has become a `?`. */
  function Marked(ps: seq<Piece>, ctx: Context): string {
    if ps == [] then "" else MarkedPiece(ps[0], ctx) + Marked(ps[1..], ctx)
  }

  function MarkedPiece(p: Piece, ctx: Context): string {
    match p
    case Chr(c) => [c]
    case Hole(_) => "?"
    case Ref(step, column) => Data(step, column, ctx)
  }

  lemma {:induction false} MarkedAppend(a: seq<Piece>, b: seq<Piece>, ctx: Context)
    ensures Marked(a + b, ctx) == Marked(a, ctx) + Marked(b, ctx)
  {
    hide MarkedPiece;
    if a == [] {
      assert a + b == b;
    } else {
      assert (a + b)[0] == a[0] && (a + b)[1..] == a[1..] + b;
      MarkedAppend(a[1..], b, ctx);
      Assoc(MarkedPiece(a[0], ctx), Marked(a[1..], ctx), Marked(b, ctx));
    }
  }

  lemma {:induction false} MarkedChars(p: string, ctx: Context)
    ensures Marked(Chars(p), ctx) == p
  {
    if p != "" {
      MarkedChars(p[1..], ctx);
    }
  }

  datatype Substituted = Substituted(sql: string, values: seq<Value>)

  /** Text and values of `substituteParameters`. */
  function Substitute(js: Js, sql: string, args: map<string, Value>, defs: map<string, ParamDef>): Result<Substituted,
          TemplateError> {
    HolesDeclared(sql, defs.Keys);
    match Arguments(js, Holes(Parts(sql, defs.Keys)), args, defs)
    case Err(e) => Err(e)
    case Ok(vs) => Ok(Substituted(Marked(Parts(sql, defs.Keys), map[]), vs))
  }

  /** Text and values already produced, put before what is still to come. */
  function Extend(text: string, values: seq<Value>, r: Result<Substituted, TemplateError>): Result<Substituted,
          TemplateError> {
    match r
    case Err(e) => Err(e)
    case Ok(x) => Ok(Substituted(text + x.sql, values + x.values))
  }

  lemma ExtendNothing(r: Result<Substituted, TemplateError>)
    ensures Extend("", [], r) == r
  {
    if r.Ok? {
      assert "" + r.value.sql == r.value.sql && [] + r.value.values == r.value.values;
    }
  }

  lemma ExtendTwice(a: string, vs: seq<Value>, b: string, ws: seq<Value>, r: Result<Substituted, TemplateError>)
    ensures Extend(a, vs, Extend(b, ws, r)) == Extend(a + b, vs + ws, r)
  {
    if r.Ok? {
      assert a + (b + r.value.sql) == (a + b) + r.value.sql;
      assert vs + (ws + r.value.values) == (vs + ws) + r.value.values;
    }
  }

  /** Characters that start no declared parameter are copied: a plain one, or a whole undeclared `{name}`. */
  lemma PartsCopied(s: string, n: nat, declared: set<string>)
    requires 0 < n <= |s| && HoleLen(s, declared) == 0 && '{' !in s[1..n]
    ensures Parts(s, declared) == Chars(s[..n]) + Parts(s[n..], declared)
  {
    var c, inner, tail := s[0], s[1..n], s[n..];
    assert s[1..] == inner + tail;
    assert s[..n] == [c] + inner;
    PartsPlain(inner, tail, declared);
    CharsCons(c, inner);
    Assoc([Chr(c)], Chars(inner), Parts(tail, declared));
  }

  lemma CharsCons(c: char, s: string)
    ensures Chars([c] + s) == [Chr(c)] + Chars(s)
  {
    assert ([c] + s)[1..] == s;
  }

  lemma SubstituteCopied(js: Js, s: string, n: nat, args: map<string, Value>, defs: map<string, ParamDef>)
    requires 0 < n <= |s| && HoleLen(s, defs.Keys) == 0 && '{' !in s[1..n]
    ensures Substitute(js, s, args, defs) == Extend(s[..n], [], Substitute(js, s[n..], args, defs))
  {
    var tail := Parts(s[n..], defs.Keys);
    PartsCopied(s, n, defs.Keys);
    HolesAppend(Chars(s[..n]), tail);
    MarkedAppend(Chars(s[..n]), tail, map[]);
    MarkedChars(s[..n], map[]);
    HolesDeclared(s[n..], defs.Keys);
    HolesDeclared(s, defs.Keys);
    assert Holes(Parts(s, defs.Keys)) == Holes(tail);
    assert Marked(Parts(s, defs.Keys), map[]) == s[..n] + Marked(tail, map[]);
    if Arguments(js, Holes(tail), args, defs).Ok? {
      assert [] + Arguments(js, Holes(tail), args, defs).value == Arguments(js, Holes(tail), args, defs).value;
    }
  }

  lemma SubstituteEmpty(js: Js, args: map<string, Value>, defs: map<string, ParamDef>)
    ensures Substitute(js, "", args, defs) == Ok(Substituted("", []))
  {
  }

  lemma SubstituteHole(js: Js, s: string, args: map<string, Value>, defs: map<string, ParamDef>)
    requires HoleLen(s, defs.Keys) > 0
    ensures Substitute(js, s, args, defs) ==
      match Argument(js, ParamName(s), args, defs)
      case Err(e) => Err(e)
      case Ok(v) => Extend("?", [v], Substitute(js, s[HoleLen(s, defs.Keys)..], args, defs))
  {
    var name, tail := ParamName(s), Parts(s[HoleLen(s, defs.Keys)..], defs.Keys);
    assert Parts(s, defs.Keys) == [Hole(name)] + tail;
    assert Holes([Hole(name)] + tail) == [name] + Holes(tail);
    HolesDeclared(s, defs.Keys);
    HolesDeclared(s[HoleLen(s, defs.Keys)..], defs.Keys);
    assert ([name] + Holes(tail))[1..] == Holes(tail);
  }

  /** The k-th value is the coerced argument of the k-th hole. */
  lemma {:induction false} ArgumentAt(js: Js, names: seq<string>, args: map<string, Value>,
          defs: map<string, ParamDef>, k: nat)
    requires forall i :: 0 <= i < |names| ==> names[i] in defs
    requires Arguments(js, names, args, defs).Ok?
    requires k < |names|
    ensures |Arguments(js, names, args, defs).value| == |names|
    ensures Argument(js, names[k], args, defs) == Ok(Arguments(js, names, args, defs).value[k])
  {
    if k > 0 {
      ArgumentAt(js, names[1..], args, defs, k - 1);
    } else if |names| > 1 {
      ArgumentAt(js, names[1..], args, defs, 0);
    }
  }

  /** A value of the declared kind. */
  predicate OfKind(v: Value, def: ParamDef) {
    match def.kind
    case StringType => v.Str?
    case NumberType => v.Num?
    case BooleanType => v.Bool?
    case EnumType => v.Str? && v.s in def.values
    case OtherType => true
  }

  lemma {:induction false} ArgumentsOkIff(js: Js, names: seq<string>, args: map<string, Value>,
          defs: map<string, ParamDef>)
    requires forall i :: 0 <= i < |names| ==> names[i] in defs
    ensures Arguments(js, names, args, defs).Ok? <==>
      forall i :: 0 <= i < |names| ==> Argument(js, names[i], args, defs).Ok?
  {
    hide Argument;
    if names != [] {
      ArgumentsOkIff(js, names[1..], args, defs);
      if forall i :: 0 <= i < |names| ==> Argument(js, names[i], args, defs).Ok? {
        forall i | 0 <= i < |names[1..]| ensures Argument(js, names[1..][i], args, defs).Ok? {
          assert names[1..][i] == names[i + 1];
        }
      } else {
        var i :| 0 <= i < |names| && Argument(js, names[i], args, defs).Err?;
        assert i > 0 ==> names[1..][i - 1] == names[i];
      }
    }
  }

  /** Substitution succeeds if and only if the argument, or default, of every parameter the text mentions
      can be coerced; and then every value sent is of its parameter's declared kind. */
  lemma SubstituteOkIff(js: Js, sql: string, args: map<string, Value>, defs: map<string, ParamDef>)
    ensures var names := Holes(Parts(sql, defs.Keys)); var r := Substitute(js, sql, args, defs);
      && (forall i :: 0 <= i < |names| ==> names[i] in defs)
      && (r.Ok? <==> forall i :: 0 <= i < |names| ==> Argument(js, names[i], args, defs).Ok?)
      && (r.Ok? ==>
        |r.value.values| == |names| && forall i :: 0 <= i < |names| ==> OfKind(r.value.values[i], defs[names[i]]))
  {
    hide Parts, Argument, Arguments;
    var names := Holes(Parts(sql, defs.Keys));
    HolesDeclared(sql, defs.Keys);
    ArgumentsOkIff(js, names, args, defs);
    if Arguments(js, names, args, defs).Ok? {
      ArgumentsLength(js, names, args, defs);
      forall i | 0 <= i < |names| ensures OfKind(Arguments(js, names, args, defs).value[i], defs[names[i]]) {
        ArgumentAt(js, names, args, defs, i);
        ArgumentOfKind(js, names[i], args, defs);
      }
    }
  }

  lemma ArgumentsLength(js: Js, names: seq<string>, args: map<string, Value>, defs: map<string, ParamDef>)
    requires forall i :: 0 <= i < |names| ==> names[i] in defs
    requires Arguments(js, names, args, defs).Ok?
    ensures |Arguments(js, names, args, defs).value| == |names|
  {
    if names != [] {
      ArgumentAt(js, names, args, defs, 0);
    }
  }

  lemma ArgumentOfKind(js: Js, name: string, args: map<string, Value>, defs: map<string, ParamDef>)
    requires name in defs && Argument(js, name, args, defs).Ok?
    ensures OfKind(Argument(js, name, args, defs).value, defs[name])
  {
  }

  /** In the text itself: after plain text a declared `{name}` becomes `?` and sends that parameter's value
      first; an undeclared one is left in place. */
  lemma ParameterSubstitutes(js: Js, p: string, name: string, rest: string, args: map<string, Value>,
        defs: map<string, ParamDef>)
    requires '{' !in p && IsWord(name)
    ensures var s := p + (['{'] + (name + (['}'] + rest)));
      Substitute(js, s, args, defs) ==
        if name !in defs then Extend(p + (['{'] + (name + ['}'])), [], Substitute(js, rest, args, defs))
        else
          match Argument(js, name, args, defs)
          case Err(e) => Err(e)
          case Ok(v) => Extend(p + "?", [v], Substitute(js, rest, args, defs))
  {
    var tail := ['{'] + (name + (['}'] + rest));
    SubstitutePlain(js, p, tail, args, defs);
    ParameterAlone(js, name, rest, args, defs);
    hide Substitute, Argument;
    var more := Substitute(js, rest, args, defs);
    if name !in defs {
      var none: seq<Value> := [];
      assert none + none == none;
      ExtendTwice(p, none, ['{'] + (name + ['}']), none, more);
    } else if Argument(js, name, args, defs).Ok? {
      ExtendTwice(p, [], "?", [Argument(js, name, args, defs).value], more);
      assert [] + [Argument(js, name, args, defs).value] == [Argument(js, name, args, defs).value];
    }
  }

  lemma SubstitutePlain(js: Js, p: string, tail: string, args: map<string, Value>, defs: map<string, ParamDef>)
    requires '{' !in p
    ensures Substitute(js, p + tail, args, defs) == Extend(p, [], Substitute(js, tail, args, defs))
  {
    hide Arguments;
    var more := Parts(tail, defs.Keys);
    PartsPlain(p, tail, defs.Keys);
    HolesAppend(Chars(p), more);
    MarkedAppend(Chars(p), more, map[]);
    MarkedChars(p, map[]);
    HolesDeclared(tail, defs.Keys);
    HolesDeclared(p + tail, defs.Keys);
    assert Holes(Parts(p + tail, defs.Keys)) == Holes(more);
    if Arguments(js, Holes(more), args, defs).Ok? {
      assert [] + Arguments(js, Holes(more), args, defs).value == Arguments(js, Holes(more), args, defs).value;
    }
  }

  lemma ParameterAlone(js: Js, name: string, rest: string, args: map<string, Value>, defs: map<string, ParamDef>)
    requires IsWord(name)
    ensures var s := ['{'] + (name + (['}'] + rest));
      Substitute(js, s, args, defs) ==
        if name !in defs then Extend(['{'] + (name + ['}']), [], Substitute(js, rest, args, defs))
        else
          match Argument(js, name, args, defs)
          case Err(e) => Err(e)
          case Ok(v) => Extend("?", [v], Substitute(js, rest, args, defs))
  {
    hide Substitute, Argument, ParamLen, ParamName;
    var s, n := ['{'] + (name + (['}'] + rest)), |name| + 2;
    WordIsName(s, name, rest);
    assert s[n..] == rest && s[..n] == ['{'] + (name + ['}']);
    if name in defs {
      SubstituteHole(js, s, args, defs);
    } else {
      assert forall i :: 0 <= i < |name| ==> name[i] != '{' by { NoBraces(name); }
      assert s[1..n] == name + ['}'];
      SubstituteCopied(js, s, n, args, defs);
    }
  }

  lemma NoBraces(name: string)
    requires IsWord(name)
    ensures '{' !in name
  {
  }

  /** Reading n plain characters at position i moves them to the text produced. */
  lemma AdvanceCopied(js: Js, sql: string, i: nat, n: nat, args: map<string, Value>, defs: map<string, ParamDef>,
          text: string, values: seq<Value>)
    requires i < i + n <= |sql| && HoleLen(sql[i..], defs.Keys) == 0 && '{' !in sql[i + 1..i + n]
    ensures Extend(text, values, Substitute(js, sql[i..], args, defs))
         == Extend(text + sql[i..i + n], values, Substitute(js, sql[i + n..], args, defs))
  {
    var rest := sql[i..];
    assert rest[n..] == sql[i + n..] && rest[..n] == sql[i..i + n] && rest[1..n] == sql[i + 1..i + n];
    SubstituteCopied(js, rest, n, args, defs);
    ExtendTwice(text, values, rest[..n], [], Substitute(js, rest[n..], args, defs));
    assert values + [] == values;
  }

  /** Reading a declared parameter produces a `?` and a value, or the error. */
  lemma AdvanceHole(js: Js, sql: string, i: nat, args: map<string, Value>, defs: map<string, ParamDef>, text: string,
          values: seq<Value>)
    requires i < |sql| && HoleLen(sql[i..], defs.Keys) > 0
    ensures Extend(text, values, Substitute(js, sql[i..], args, defs)) ==
      match Argument(js, ParamName(sql[i..]), args, defs)
      case Err(e) => Err(e)
      case Ok(v) =>
        Extend(text + "?", values + [v], Substitute(js, sql[i + HoleLen(sql[i..], defs.Keys)..], args, defs))
  {
    hide Substitute, Argument;
    var rest := sql[i..];
    var m := HoleLen(rest, defs.Keys);
    assert rest[m..] == sql[i + m..];
    SubstituteHole(js, rest, args, defs);
    match Argument(js, ParamName(rest), args, defs)
    case Err(_) =>
    case Ok(v) => ExtendTwice(text, values, "?", [v], Substitute(js, rest[m..], args, defs));
  }

  lemma SliceOfRest(s: string, i: nat, n: nat)
    requires 1 <= n && i + n <= |s|
    ensures s[i + 1..i + n] == s[i..][1..n]
  {
  }

  /** `substituteParameters`: walk the matches left to right, replacing each declared one
      by `?` and pushing its value; the first bad value throws. */
  method SubstituteParameters(js: Js, sql: string, args: map<string, Value>, defs: map<string, ParamDef>)
    returns (r: Result<Substituted, TemplateError>)
    ensures r == Substitute(js, sql, args, defs)
  {
    hide Substitute, Argument, IdentRun;
    var substituted, values, i := "", [], 0;
    ghost var whole := Substitute(js, sql, args, defs);
    assert sql[0..] == sql;
    ExtendNothing(whole);
    while i < |sql|
      invariant i <= |sql|
      invariant whole == Extend(substituted, values, Substitute(js, sql[i..], args, defs))
    {
      var m := ParamLen(sql[i..]);
      if m > 0 && ParamName(sql[i..]) in defs {
        AdvanceHole(js, sql, i, args, defs, substituted, values);
        var v := Argument(js, ParamName(sql[i..]), args, defs);
        if v.Err? {
          return Err(v.error);
        }
        values := values + [v.value];
        substituted := substituted + "?";
        i := i + m;
      } else {
        var n := if m > 0 then m else 1;
        SliceOfRest(sql, i, n);
        AdvanceCopied(js, sql, i, n, args, defs, substituted, values);
        substituted := substituted + sql[i..i + n];
        i := i + n;
      }
    }
    assert sql[i..] == "";
    SubstituteEmpty(js, args, defs);
    assert substituted + "" == substituted && values + [] == values;
    return Ok(Substituted(substituted, values));
  }

  // ---------------------------------------------------------------------
  // References
  // ---------------------------------------------------------------------

  /** The characters `String(n)` prints for a finite number. */
  predicate IsNumeral(s: string) {
    && s != ""
    && ('0' <= s[0] <= '9' || s[0] == '-')
    && '0' <= s[|s| - 1] <= '9'
    && forall i :: 0 <= i < |s| ==> '0' <= s[i] <= '9' || s[i] in {'-', '+', '.', 'e'}
  }

  type Numeral = s: string | IsNumeral(s) witness "0"

  datatype Cell = Number(numeral: Numeral) | Text(s: string) | Other

  datatype QueryResult = QueryResult(columns: seq<string>, rows: seq<seq<Cell>>)

  type Context = map<string, QueryResult>

  function IndexOf(xs: seq<string>, x: string): (k: nat)
    ensures k <= |xs|
    ensures k < |xs| ==> xs[k] == x && x !in xs[..k]
    ensures k == |xs| ==> x !in xs
  {
    if xs == [] || xs[0] == x then 0
    else
      assert xs == [xs[0]] + xs[1..];
      1 + IndexOf(xs[1..], x)
  }

  function ColumnCells(rows: seq<seq<Cell>>, k: nat): (cells: seq<Cell>)
    ensures |cells| == |rows|
  {
    if rows == [] then [] else [if k < |rows[0]| then rows[0][k] else Other] + ColumnCells(rows[1..], k)
  }

  /** The cells a reference stands for, or why it stands for none. */
  function Lookup(step: string, column: string, ctx: Context): (r: Result<seq<Cell>, TemplateError>)
    ensures r.Ok? ==> r.value != [] && Other !in r.value
  {
    if step !in ctx then Err(StepNotFound(step))
    else
      var result := ctx[step];
      var k := IndexOf(result.columns, column);
      if k == |result.columns| then Err(ColumnNotFound(step, column))
      else if result.rows == [] then Err(NoRows(step))
      else if Other in ColumnCells(result.rows, k) then Err(UnsupportedType(step, column))
      else Ok(ColumnCells(result.rows, k))
  }

  lemma {:induction false} ColumnCellAt(rows: seq<seq<Cell>>, k: nat, i: nat)
    requires i < |rows|
    ensures ColumnCells(rows, k)[i] == if k < |rows[i]| then rows[i][k] else Other
  {
    if i > 0 {
      ColumnCellAt(rows[1..], k, i - 1);
    }
  }

  /** k is the first column of that name. */
  predicate FirstColumn(columns: seq<string>, column: string, k: nat) {
    k < |columns| && columns[k] == column && forall j :: 0 <= j < k ==> columns[j] != column
  }

  /** Row i has a string or a number in column k. */
  predicate Printable(rows: seq<seq<Cell>>, k: nat, i: nat)
    requires i < |rows|
  {
    k < |rows[i]| && (rows[i][k].Number? || rows[i][k].Text?)
  }

  /** cells is the column of that name, row by row. */
  predicate IsColumn(cells: seq<Cell>, result: QueryResult, column: string) {
    exists k ::
      && 0 <= k < |result.columns| && FirstColumn(result.columns, column, k) && |cells| == |result.rows| > 0
      && forall i :: 0 <= i < |cells| ==> Printable(result.rows, k, i) && cells[i] == result.rows[i][k]
  }

  /** What a reference stands for: the cells of the first column of that name of that step's result, one for
      each row. And which of the four errors stops it: no such step, no such column, no rows, or a value that
      is neither a string nor a number, tested in this order. */
  lemma LookupMeans(step: string, column: string, ctx: Context)
    ensures var r := Lookup(step, column, ctx);
      && (r == Err(StepNotFound(step)) <==> step !in ctx)
      && (r == Err(ColumnNotFound(step, column)) <==> step in ctx && column !in ctx[step].columns)
      && (r == Err(NoRows(step)) <==> step in ctx && column in ctx[step].columns && ctx[step].rows == [])
      && (r == Err(UnsupportedType(step, column)) <==>
            && step in ctx && ctx[step].rows != []
            && exists k: nat, i ::
                 && FirstColumn(ctx[step].columns, column, k) && 0 <= i < |ctx[step].rows|
                 && !Printable(ctx[step].rows, k, i))
      && (r.Ok? ==> step in ctx && IsColumn(r.value, ctx[step], column))
  {
    if step in ctx {
      var result := ctx[step];
      var k := IndexOf(result.columns, column);
      if k < |result.columns| {
        assert forall j :: 0 <= j < k ==> result.columns[..k][j] == result.columns[j];
        assert FirstColumn(result.columns, column, k);
        OnlyFirst(result.columns, column, k);
        var cells := ColumnCells(result.rows, k);
        forall i | 0 <= i < |cells| ensures cells[i] == if k < |result.rows[i]| then result.rows[i][k] else Other {
          ColumnCellAt(result.rows, k, i);
        }
        CellsPrintable(result.rows, k, cells);
      }
    }
  }

  lemma OnlyFirst(columns: seq<string>, column: string, k: nat)
    requires FirstColumn(columns, column, k)
    ensures forall j: nat :: FirstColumn(columns, column, j) ==> j == k
  {
  }

  lemma CellsPrintable(rows: seq<seq<Cell>>, k: nat, cells: seq<Cell>)
    requires |cells| == |rows|
    requires forall i :: 0 <= i < |cells| ==> cells[i] == if k < |rows[i]| then rows[i][k] else Other
    ensures Other in cells <==> exists i :: 0 <= i < |rows| && !Printable(rows, k, i)
  {
    if i :| 0 <= i < |rows| && !Printable(rows, k, i) {
      assert cells[i] == Other;
    }
    if Other in cells {
      var i :| 0 <= i < |cells| && cells[i] == Other;
      assert !Printable(rows, k, i);
    }
  }

  /** `'` doubled. */
  function Escape(s: string): string {
    if s == "" then "" else (if s[0] == '\'' then "''" else [s[0]]) + Escape(s[1..])
  }

  function PrintCell(c: Cell): string {
    match c
    case Number(n) => n
    case Text(s) => "'" + Escape(s) + "'"
    case Other => ""
  }

  function PrintList(cells: seq<Cell>): string {
    if cells == [] then ""
    else if |cells| == 1 then PrintCell(cells[0])
    else PrintCell(cells[0]) + ", " + PrintList(cells[1..])
  }

  function Data(step: string, column: string, ctx: Context): string {
    match Lookup(step, column, ctx)
    case Ok(cells) => PrintList(cells)
    case Err(_) => ""
  }

  function Prepend(p: string, r: Result<string, TemplateError>): Result<string, TemplateError> {
    match r
    case Ok(s) => Ok(p + s)
    case Err(e) => Err(e)
  }

  /** `expandComposeReferences`. */
  function Expand(s: string, ctx: Context): Result<string, TemplateError>
    decreases |s|
  {
    if s == "" then Ok("")
    else
      var r := RefLen(s);
      if r > 0 then
        match Lookup(StepName(s), ColumnName(s), ctx)
        case Err(e) => Err(e)
        case Ok(cells) => Prepend(PrintList(cells), Expand(s[r..], ctx))
      else Prepend([s[0]], Expand(s[1..], ctx))
  }
}

/**
  What a multi-step tool checks before it touches the backend (src/custom-tools.ts, the first loop of
  `executeStepsRaw`, and src/permission-enforcer.ts).
*/
module StepChecks {
  import opened Common
  import opened Templates

  datatype Permission = ReadOnly | ReadWrite | Admin

  datatype Refusal = BadTemplate(error: TemplateError) | Insecure(sql: string) | NotPermitted(category: Category)

  /** PERMISSION_HIERARCHY. */
  predicate Permits(level: Permission, category: Category) {
    match level
    case ReadOnly => category.Read?
    case ReadWrite => !category.Ddl?
    case Admin => true
  }

  /** Read is for everyone, write needs more than read-only, DDL needs admin. */
  lemma PermitsTable(level: Permission, category: Category)
    ensures Permits(level, category) <==>
      category == Read || (category == Write && level != ReadOnly) || (category == Ddl && level == Admin)
  {
  }

  function Rank(category: Category): int {
    match category case Read => 0 case Write => 1 case Ddl => 2
  }

  /** What is sent for step i, or why it cannot be. */
  function Sent(js: Js, sqls: seq<string>, args: map<string, Value>, defs: map<string, ParamDef>,
          secure: string -> bool, i: nat)
    : Result<Substituted, Refusal>
    requires i < |sqls|
  {
    match Substitute(js, sqls[i], args, defs)
    case Err(e) => Err(BadTemplate(e))
    case Ok(s) => if secure(s.sql) then Ok(s) else Err(Insecure(s.sql))
  }

  /** Nothing is handed on, so nothing reaches the backend, unless every single step substitutes, passes the
      security check and is of a permitted category; and then every step is handed on, in order. The first
      step that cannot be sent decides the error, and only then the permission. */
  method PrepareSteps(js: Js, sqls: seq<string>, args: map<string, Value>, defs: map<string, ParamDef>,
                      secure: string -> bool, classify: string -> Category, level: Permission)
    returns (r: Result<seq<Substituted>, Refusal>)
    ensures r.Ok? <==> forall i :: 0 <= i < |sqls| ==>
      var s := Sent(js, sqls, args, defs, secure, i); s.Ok? && Permits(level, classify(s.value.sql))
    ensures r.Ok? ==>
      |r.value| == |sqls| && forall i :: 0 <= i < |sqls| ==> Sent(js, sqls, args, defs, secure, i) == Ok(r.value[i])
    ensures r.Err? && !r.error.NotPermitted? ==>
      exists i :: 0 <= i < |sqls| && Sent(js, sqls, args, defs, secure, i) == Err(r.error)
        && forall j :: 0 <= j < i ==> Sent(js, sqls, args, defs, secure, j).Ok?
    ensures r.Err? && r.error.NotPermitted? ==>
      && !Permits(level, r.error.category)
      && (forall i :: 0 <= i < |sqls| ==> Sent(js, sqls, args, defs, secure, i).Ok?)
      && exists i :: 0 <= i < |sqls| && classify(Sent(js, sqls, args, defs, secure, i).value.sql) == r.error.category
  {
    hide Substitute;
    var maxCategory := Read;
    var substituted: seq<Substituted> := [];
    ghost var worst: nat := 0;
    var i := 0;
    while i < |sqls|
      invariant 0 <= i <= |sqls| && |substituted| == i
      invariant forall j :: 0 <= j < i ==> Sent(js, sqls, args, defs, secure, j) == Ok(substituted[j])
      invariant forall j :: 0 <= j < i ==> Rank(classify(substituted[j].sql)) <= Rank(maxCategory)
      invariant maxCategory.Read? || (worst < i && classify(substituted[worst].sql) == maxCategory)
    {
      var s := Substitute(js, sqls[i], args, defs);
      if s.Err? {
        assert Sent(js, sqls, args, defs, secure, i) == Err(BadTemplate(s.error));
        return Err(BadTemplate(s.error));
      }
      if !secure(s.value.sql) {
        assert Sent(js, sqls, args, defs, secure, i) == Err(Insecure(s.value.sql));
        return Err(Insecure(s.value.sql));
      }
      var category := classify(s.value.sql);
      if Rank(category) > Rank(maxCategory) {
        maxCategory := category;
        worst := i;
      }
      substituted := substituted + [s.value];
      i := i + 1;
    }
    if !Permits(level, maxCategory) {
      assert Sent(js, sqls, args, defs, secure, worst) == Ok(substituted[worst]);
      return Err(NotPermitted(maxCategory));
    }
    return Ok(substituted);
  }
}

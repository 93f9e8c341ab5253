/**
  Multi-step tools (src/custom-tools.ts, `executeStepsRaw`): BEGIN, the steps, COMMIT or ROLLBACK,
  then one DROP for each temporary table created. The backend is one session per connection.
*/
module StepsTool {
  import opened Common

  type Rows = seq<int>
  type Store = map<string, Rows>

  /** What a successful statement leaves behind and returns. */
  datatype Effect = Effect(perm: Store, temp: Store, rows: Rows)

  /** One step: what its SQL does (None when the backend rejects it), whether it is the one to
      return, and the name after CREATE TEMP TABLE in its text. */
  datatype Step = Step(effect: (Store, Store) -> Option<Effect>, isReturn: bool, creates: Option<string>)

  /** Permanent and temporary tables as the session sees them; `undo` holds both as they were at BEGIN. */
  datatype Session = Session(perm: Store, temp: Store, undo: Option<(Store, Store)>)

  /** Which commands the backend refuses, and whether ROLLBACK also undoes changes to temporary tables. */
  datatype Faults = Faults(begin: bool, commit: bool, rollback: bool, drops: set<nat>, undoesTemp: bool)

  datatype Command = Begin | Run(step: nat) | Commit | Rollback | Drop(table: string)

  /** DROP TABLE IF EXISTS finds the temporary table first. */
  function DropTable(s: Session, t: string): Session {
    if t in s.temp then s.(temp := s.temp - {t}) else s.(perm := s.perm - {t})
  }

  // ---------------------------------------------------------------------
  // One call, command by command
  // ---------------------------------------------------------------------

  /** Where a call stands: the command it sends next. `Rejected` is a call whose BEGIN failed. */
  datatype Pc = AtBegin | AtStep(i: nat) | AtCommit | AtRollback | AtDrop(j: nat) | AtRelease | Rejected

  datatype Local = Local(pc: Pc, created: seq<string>, last: Option<Rows>, marked: Option<Rows>, threw: bool,
          sent: seq<Command>)

  const START := Local(AtBegin, [], None, None, false, [])

  predicate Ended(l: Local) { l.pc.AtRelease? || l.pc.Rejected? }

  function NextStep(steps: seq<Step>, i: nat): Pc {
    if i < |steps| then AtStep(i) else AtCommit
  }

  function NextDrop(created: seq<string>, j: nat): Pc {
    if j < |created| then AtDrop(j) else AtRelease
  }

  /** Sends one command, and handles the reply. */
  function Micro(steps: seq<Step>, f: Faults, s: Session, l: Local): (r: (Session, Local))
    requires Fits(steps, l) && !Ended(l)
  {
    match l.pc
    case AtBegin =>
      var l1 := l.(sent := l.sent + [Begin]);
      if f.begin || s.undo.Some? then (s, l1.(pc := Rejected, threw := true))
      else (s.(undo := Some((s.perm, s.temp))), l1.(pc := NextStep(steps, 0)))
    case AtStep(i) =>
      var l1 := l.(sent := l.sent + [Run(i)]);
      (match steps[i].effect(s.perm, s.temp)
       case None => (s, l1.(pc := AtRollback, threw := true))
       case Some(e) =>
         (s.(perm := e.perm, temp := e.temp),
          l1.(pc := NextStep(steps, i + 1),
              last := Some(e.rows),
              marked := if steps[i].isReturn then Some(e.rows) else l.marked,
              created := if steps[i].creates.Some? then l.created + [steps[i].creates.value] else l.created)))
    case AtCommit =>
      var l1 := l.(sent := l.sent + [Commit]);
      if f.commit || s.undo.None? then (s, l1.(pc := AtRollback, threw := true))
      else (s.(undo := None), l1.(pc := NextDrop(l.created, 0)))
    case AtRollback =>
      var l1 := l.(sent := l.sent + [Rollback], pc := NextDrop(l.created, 0));
      if f.rollback || s.undo.None? then (s, l1)
      else (Session(s.undo.value.0, if f.undoesTemp then s.undo.value.1 else s.temp, None), l1)
    case AtDrop(j) =>
      var l1 := l.(sent := l.sent + [Drop(l.created[j])], pc := NextDrop(l.created, j + 1));
      (if j in f.drops then s else DropTable(s, l.created[j]), l1)
    case AtRelease => (s, l)
    case Rejected => (s, l)
  }

  /** Commands still to come, at most. */
  function Remaining(steps: seq<Step>, l: Local): int {
    match l.pc
    case AtBegin => 2 * |steps| + |l.created| + 5
    case AtStep(i) => 2 * (|steps| - i) + |l.created| + 4
    case AtCommit => |l.created| + 4
    case AtRollback => |l.created| + 3
    case AtDrop(j) => |l.created| - j + 1
    case _ => 0
  }

  /** Positions reachable from START: created names are at most the steps passed. */
  predicate Fits(steps: seq<Step>, l: Local) {
    match l.pc
    case AtBegin => l.created == []
    case AtStep(i) => i < |steps| && |l.created| <= i
    case AtDrop(j) => j < |l.created| <= |steps|
    case _ => |l.created| <= |steps|
  }

  lemma MicroFits(steps: seq<Step>, f: Faults, s: Session, l: Local)
    requires Fits(steps, l) && !Ended(l)
    ensures var (s', l') := Micro(steps, f, s, l);
      && Fits(steps, l') && Remaining(steps, l') < Remaining(steps, l)
      && |l'.sent| == |l.sent| + 1 && l'.sent[..|l.sent|] == l.sent
  {
  }

  /** The rest of the call, with nobody in between. */
  function Finish(steps: seq<Step>, f: Faults, s: Session, l: Local): (r: (Session, Local))
    requires Fits(steps, l)
    ensures Ended(r.1) && Fits(steps, r.1)
    decreases Remaining(steps, l)
  {
    if Ended(l) then (s, l)
    else
      MicroFits(steps, f, s, l);
      var (s', l') := Micro(steps, f, s, l);
      Finish(steps, f, s', l')
  }

  function RunCall(steps: seq<Step>, f: Faults, s: Session): (Session, Local) {
    Finish(steps, f, s, START)
  }

  // ---------------------------------------------------------------------
  // What the steps amount to
  // ---------------------------------------------------------------------

  /** Tables and results once the first i steps have run, None when one of them is rejected. */
  function Prefix(steps: seq<Step>, perm: Store, temp: Store, i: nat): (r: Option<(Store, Store, seq<Rows>)>)
    requires i <= |steps|
    ensures r.Some? ==> |r.value.2| == i
  {
    if i == 0 then Some((perm, temp, []))
    else
      match Prefix(steps, perm, temp, i - 1)
      case None => None
      case Some((p, t, rs)) =>
        match steps[i - 1].effect(p, t)
        case None => None
        case Some(e) => Some((e.perm, e.temp, rs + [e.rows]))
  }

  /** How many steps run before one is rejected. */
  function Accepted(steps: seq<Step>, perm: Store, temp: Store, i: nat): (n: nat)
    requires i <= |steps|
    ensures n <= i && Prefix(steps, perm, temp, n).Some?
    ensures n < i ==> Prefix(steps, perm, temp, n + 1).None?
    ensures n == i <==> Prefix(steps, perm, temp, i).Some?
  {
    if i == 0 then 0
    else
      var n := Accepted(steps, perm, temp, i - 1);
      if n == i - 1 && Prefix(steps, perm, temp, i).Some? then i else n
  }

  /** Names created by the first i steps. */
  function CreatedBy(steps: seq<Step>, i: nat): (names: seq<string>)
    requires i <= |steps|
    ensures |names| <= i
  {
    if i == 0 then []
    else CreatedBy(steps, i - 1) + if steps[i - 1].creates.Some? then [steps[i - 1].creates.value] else []
  }

  /** The last of the first i steps that is marked `return`. */
  function MarkedStep(steps: seq<Step>, i: nat): (m: Option<nat>)
    requires i <= |steps|
    ensures m.Some? ==> m.value < i && steps[m.value].isReturn && forall k :: m.value < k < i ==> !steps[k].isReturn
    ensures m.None? ==> forall k :: 0 <= k < i ==> !steps[k].isReturn
  {
    if i == 0 then None else if steps[i - 1].isReturn then Some(i - 1) else MarkedStep(steps, i - 1)
  }

  function Cleaned(s: Session, names: seq<string>, failing: set<nat>, j: nat): (r: Session)
    requires j <= |names|
    ensures r.undo == s.undo
  {
    if j == 0 then s
    else
      var before := Cleaned(s, names, failing, j - 1);
      if j - 1 in failing then before else DropTable(before, names[j - 1])
  }

  /** The call's position after i accepted steps. */
  function AfterSteps(steps: seq<Step>, perm: Store, temp: Store, i: nat, sent: seq<Command>): Local
    requires i <= |steps| && Prefix(steps, perm, temp, i).Some?
  {
    var rs := Prefix(steps, perm, temp, i).value.2;
    Local(NextStep(steps, i), CreatedBy(steps, i), if i == 0 then None else Some(rs[i - 1]),
          if MarkedStep(steps, i).None? then None else Some(rs[MarkedStep(steps, i).value]), false, sent)
  }

  /** BEGIN and the steps that are accepted. */
  function SentSteps(i: nat): (c: seq<Command>)
    ensures |c| == i + 1
  {
    if i == 0 then [Begin] else SentSteps(i - 1) + [Run(i - 1)]
  }

  function InTransaction(steps: seq<Step>, s: Session, i: nat): Session
    requires i <= |steps| && Prefix(steps, s.perm, s.temp, i).Some?
  {
    var (p, t, _) := Prefix(steps, s.perm, s.temp, i).value;
    Session(p, t, Some((s.perm, s.temp)))
  }

  lemma {:induction false} ReachesStep(steps: seq<Step>, f: Faults, s: Session, i: nat)
    requires s.undo.None? && !f.begin
    requires i <= |steps| && Prefix(steps, s.perm, s.temp, i).Some?
    ensures RunCall(steps, f, s)
         == Finish(steps, f, InTransaction(steps, s, i), AfterSteps(steps, s.perm, s.temp, i, SentSteps(i)))
  {
    if i > 0 {
      ReachesStep(steps, f, s, i - 1);
      var (p, t, rs) := Prefix(steps, s.perm, s.temp, i - 1).value;
      var s1, l1 := InTransaction(steps, s, i - 1), AfterSteps(steps, s.perm, s.temp, i - 1, SentSteps(i - 1));
      var e := steps[i - 1].effect(p, t).value;
      assert CreatedBy(steps, i - 1) + [] == CreatedBy(steps, i - 1);
      assert MarkedStep(steps, i) == if steps[i - 1].isReturn then Some(i - 1) else MarkedStep(steps, i - 1);
      assert Micro(steps, f, s1, l1) ==
        (InTransaction(steps, s, i), AfterSteps(steps, s.perm, s.temp, i, SentSteps(i)));
    } else {
      assert [] + [Begin] == [Begin];
    }
  }

  lemma {:induction false} DropsFrom(steps: seq<Step>, f: Faults, base: Session, l: Local, j: nat)
    requires Fits(steps, l) && j <= |l.created| <= |steps| && l.pc == NextDrop(l.created, j)
    ensures var r := Finish(steps, f, Cleaned(base, l.created, f.drops, j), l);
      && r.0 == Cleaned(base, l.created, f.drops, |l.created|)
      && r.1 == l.(pc := AtRelease, sent := l.sent + DropCommands(l.created, j))
    decreases |l.created| - j
  {
    if j < |l.created| {
      var (s', l') := Micro(steps, f, Cleaned(base, l.created, f.drops, j), l);
      DropsFrom(steps, f, base, l', j + 1);
      Assoc(l.sent, [Drop(l.created[j])], DropCommands(l.created, j + 1));
    } else {
      assert l.sent + [] == l.sent;
    }
  }

  function DropCommands(names: seq<string>, j: nat): seq<Command>
    requires j <= |names|
    decreases |names| - j
  {
    if j == |names| then [] else [Drop(names[j])] + DropCommands(names, j + 1)
  }

  // ---------------------------------------------------------------------
  // The whole call in closed form
  // ---------------------------------------------------------------------

  predicate Commits(steps: seq<Step>, f: Faults, s: Session) {
    Prefix(steps, s.perm, s.temp, |steps|).Some? && !f.commit
  }

  /** The session when clean-up starts. */
  function Settled(steps: seq<Step>, f: Faults, s: Session): Session {
    var n := Accepted(steps, s.perm, s.temp, |steps|);
    var (p, t, _) := Prefix(steps, s.perm, s.temp, n).value;
    if Commits(steps, f, s) then Session(p, t, None)
    else if f.rollback then Session(p, t, Some((s.perm, s.temp)))
    else Session(s.perm, if f.undoesTemp then s.temp else t, None)
  }

  /** The commands of a whole call: BEGIN, the accepted steps, the rejected one if any, COMMIT and/or
      ROLLBACK, and a DROP for each temporary table in order of creation. */
  function Block(steps: seq<Step>, f: Faults, s: Session): seq<Command> {
    var n := Accepted(steps, s.perm, s.temp, |steps|);
    var middle := if n < |steps| then [Run(n), Rollback] else if f.commit then [Commit, Rollback] else [Commit];
    SentSteps(n) + (middle + DropCommands(CreatedBy(steps, n), 0))
  }

  /** What the call hands back: the marked step's rows, or else the last step's. */
  function Answer(steps: seq<Step>, s: Session): Option<Rows>
    requires Prefix(steps, s.perm, s.temp, |steps|).Some?
  {
    var rs := Prefix(steps, s.perm, s.temp, |steps|).value.2;
    match MarkedStep(steps, |steps|)
    case Some(m) => Some(rs[m])
    case None => if rs == [] then None else Some(rs[|rs| - 1])
  }

  /** `returnResult ?? lastResult` */
  function Returned(l: Local): Option<Rows> {
    if l.marked.Some? then l.marked else l.last
  }

  lemma WholeCall(steps: seq<Step>, f: Faults, s: Session)
    requires s.undo.None? && !f.begin
    ensures var (s', l') := RunCall(steps, f, s); var n := Accepted(steps, s.perm, s.temp, |steps|);
      && l'.pc == AtRelease
      && s' == Cleaned(Settled(steps, f, s), CreatedBy(steps, n), f.drops, |CreatedBy(steps, n)|)
      && l'.sent == Block(steps, f, s)
      && (l'.threw <==> !Commits(steps, f, s))
      && (!l'.threw ==> Returned(l') == Answer(steps, s))
  {
    hide Cleaned, DropTable, Remaining, Fits, MarkedStep, SentSteps;
    var n := Accepted(steps, s.perm, s.temp, |steps|);
    ReachesStep(steps, f, s, n);
    var s1, l1 := InTransaction(steps, s, n), AfterSteps(steps, s.perm, s.temp, n, SentSteps(n));
    WholeCallTail(steps, f, s, n, s1, l1);
  }

  lemma WholeCallTail(steps: seq<Step>, f: Faults, s: Session, n: nat, s1: Session, l1: Local)
    requires s.undo.None? && !f.begin && n == Accepted(steps, s.perm, s.temp, |steps|)
    requires s1 == InTransaction(steps, s, n) && l1 == AfterSteps(steps, s.perm, s.temp, n, SentSteps(n))
    ensures Fits(steps, l1)
    ensures var (s', l') := Finish(steps, f, s1, l1);
      && l'.pc == AtRelease
      && s' == Cleaned(Settled(steps, f, s), CreatedBy(steps, n), f.drops, |CreatedBy(steps, n)|)
      && l'.sent == Block(steps, f, s)
      && (l'.threw <==> !Commits(steps, f, s))
      && (!l'.threw ==> Returned(l') == Answer(steps, s))
  {
    hide Cleaned, DropTable, Remaining, MarkedStep, SentSteps, Finish, DropCommands;
    AfterStepsFits(steps, s, n);
    var names := CreatedBy(steps, n);
    var drops := DropCommands(names, 0);
    Advance(steps, f, s1, l1);
    var (s2, l2) := Micro(steps, f, s1, l1);
    if n == |steps| && !f.commit {
      CleanedNone(s2, names, f.drops);
      DropsFrom(steps, f, s2, l2, 0);
      Assoc(SentSteps(n), [Commit], drops);
    } else {
      Advance(steps, f, s2, l2);
      var (s3, l3) := Micro(steps, f, s2, l2);
      CleanedNone(s3, names, f.drops);
      DropsFrom(steps, f, s3, l3, 0);
      var first := if n < |steps| then Run(n) else Commit;
      SentTwice(SentSteps(n), first, drops);
    }
  }

  lemma AfterStepsFits(steps: seq<Step>, s: Session, n: nat)
    requires n <= |steps| && Prefix(steps, s.perm, s.temp, n).Some?
    ensures Fits(steps, AfterSteps(steps, s.perm, s.temp, n, SentSteps(n)))
  {
  }

  lemma CleanedNone(s: Session, names: seq<string>, failing: set<nat>)
    ensures Cleaned(s, names, failing, 0) == s
  {
  }

  lemma SentTwice(before: seq<Command>, first: Command, drops: seq<Command>)
    ensures before + [first] + [Rollback] + drops == before + ([first, Rollback] + drops)
  {
    Assoc(before, [first], [Rollback]);
    Assoc(before, [first] + [Rollback], drops);
    assert [first] + [Rollback] == [first, Rollback];
  }

  // ---------------------------------------------------------------------
  // All or nothing
  // ---------------------------------------------------------------------

  /** Clean-up touches only the named tables. */
  lemma {:induction false} CleanedOthers(s: Session, names: seq<string>, failing: set<nat>, j: nat, t: string)
    requires j <= |names| && t !in names[..j]
    ensures var r := Cleaned(s, names, failing, j);
      && (t in r.perm <==> t in s.perm) && (t in s.perm ==> r.perm[t] == s.perm[t])
      && (t in r.temp <==> t in s.temp) && (t in s.temp ==> r.temp[t] == s.temp[t])
  {
    if j > 0 {
      assert names[..j] == names[..j - 1] + [names[j - 1]];
      CleanedOthers(s, names, failing, j - 1, t);
    }
  }

  /** Clean-up only removes. */
  lemma {:induction false} CleanedShrinks(s: Session, names: seq<string>, failing: set<nat>, j: nat, t: string)
    requires j <= |names|
    ensures var r := Cleaned(s, names, failing, j);
      && (t in r.perm ==> t in s.perm && r.perm[t] == s.perm[t])
      && (t in r.temp ==> t in s.temp && r.temp[t] == s.temp[t])
  {
    if j > 0 {
      CleanedShrinks(s, names, failing, j - 1, t);
    }
  }

  /** Where a name stands after j successful drops: its temporary table goes at the first drop of that
      name, its permanent table at the first drop that finds no temporary one. */
  lemma {:induction false} CleanedName(s: Session, names: seq<string>, j: nat, t: string)
    requires j <= |names|
    ensures var r := Cleaned(s, names, {}, j); var k := multiset(names[..j])[t];
      && (t in r.temp <==> t in s.temp && k == 0)
      && (t in r.perm <==> t in s.perm && (k == 0 || (k == 1 && t in s.temp)))
  {
    if j > 0 {
      assert names[..j] == names[..j - 1] + [names[j - 1]];
      CleanedName(s, names, j - 1, t);
    } else {
      assert names[..0] == [];
    }
  }

  /** A permanent table is lost to clean-up exactly when its name was created as temporary and, at that
      point, is no longer a temporary table or was created twice. */
  predicate SparesPermanent(s: Session, names: seq<string>) {
    forall t :: t in names && t in s.perm ==> t in s.temp && multiset(names)[t] == 1
  }

  lemma CleanupSpares(s: Session, names: seq<string>)
    ensures Cleaned(s, names, {}, |names|).perm == s.perm <==> SparesPermanent(s, names)
    ensures forall t :: t in names ==> t !in Cleaned(s, names, {}, |names|).temp
  {
    var r := Cleaned(s, names, {}, |names|);
    assert names[..|names|] == names;
    forall t {:trigger t in r.perm} {:trigger t in r.temp}
      ensures t in r.perm <==> t in s.perm && (t in names ==> t in s.temp && multiset(names)[t] == 1)
      ensures t in r.perm ==> r.perm[t] == s.perm[t]
      ensures t in names ==> t !in r.temp
    {
      CleanedName(s, names, |names|, t);
      CleanedShrinks(s, names, {}, |names|, t);
      assert t in names <==> t in multiset(names);
    }
    if SparesPermanent(s, names) {
      assert r.perm.Keys == s.perm.Keys;
    }
  }

  /** On return every step has run, in order, on what its predecessor left, the commit has gone through
      and the answer is the marked step's rows or else the last one's. On throw, as long as ROLLBACK
      works, clean-up starts from the permanent tables of before the call. */
  lemma AllOrNothing(steps: seq<Step>, f: Faults, s: Session)
    requires s.undo.None? && !f.begin
    ensures var (s', l') := RunCall(steps, f, s);
      var before := Settled(steps, f, s);
      var names := CreatedBy(steps, Accepted(steps, s.perm, s.temp, |steps|));
      && (l'.threw <==> Prefix(steps, s.perm, s.temp, |steps|).None? || f.commit)
      && (!l'.threw ==> before.perm == Prefix(steps, s.perm, s.temp, |steps|).value.0
                        && before.undo.None? && Returned(l') == Answer(steps, s))
      && (l'.threw && !f.rollback ==>
            && before.perm == s.perm && before.undo.None?
            && before.temp == if f.undoesTemp then s.temp
               else Prefix(steps, s.perm, s.temp, Accepted(steps, s.perm, s.temp, |steps|)).value.1)
      && (f.drops == {} ==> (s'.perm == before.perm <==> SparesPermanent(before, names)))
      && (f.drops == {} ==> forall t :: t in names ==> t !in s'.temp)
  {
    hide Cleaned, SparesPermanent, RunCall, Answer, Returned, Block, MarkedStep;
    WholeCall(steps, f, s);
    CleanupSpares(Settled(steps, f, s), CreatedBy(steps, Accepted(steps, s.perm, s.temp, |steps|)));
  }

  /** Steps say which temporary tables they make, and leave those of others alone. */
  ghost predicate TracksTemp(step: Step) {
    forall p: Store, t: Store :: step.effect(p, t).Some? ==>
      var t' := step.effect(p, t).value.temp;
      forall n: string :: step.creates != Some(n) ==> ((n in t' <==> n in t) && (n in t ==> t'[n] == t[n]))
  }

  lemma {:induction false} PrefixTemp(steps: seq<Step>, p: Store, t: Store, i: nat, n: string)
    requires i <= |steps| && Prefix(steps, p, t, i).Some?
    requires forall k :: 0 <= k < |steps| ==> TracksTemp(steps[k])
    requires n !in CreatedBy(steps, i)
    ensures var t' := Prefix(steps, p, t, i).value.1; (n in t' <==> n in t) && (n in t ==> t'[n] == t[n])
  {
    if i > 0 {
      var (p1, t1, _) := Prefix(steps, p, t, i - 1).value;
      PrefixTemp(steps, p, t, i - 1, n);
      assert TracksTemp(steps[i - 1]);
      assert steps[i - 1].creates != Some(n);
      assert steps[i - 1].effect(p1, t1).Some?;
    }
  }

  /** When names created as temporary are new to the session, every drop and ROLLBACK works and steps
      track their temporary tables, a call that throws leaves the session exactly as it was, and one
      that returns changes the permanent tables alone: running the tool again starts the same. */
  lemma RerunStartsTheSame(steps: seq<Step>, f: Faults, s: Session)
    requires s.undo.None? && !f.begin && !f.rollback && f.drops == {}
    requires forall k :: 0 <= k < |steps| ==> TracksTemp(steps[k])
    requires forall k :: 0 <= k < |steps| && steps[k].creates.Some? ==>
      steps[k].creates.value !in s.temp && steps[k].creates.value !in s.perm
    ensures var (s', l') := RunCall(steps, f, s);
      && s'.temp == s.temp && s'.undo.None?
      && (l'.threw ==> s' == s)
  {
    hide Cleaned, RunCall, MarkedStep, Block, Answer, TracksTemp;
    WholeCall(steps, f, s);
    var n := Accepted(steps, s.perm, s.temp, |steps|);
    var names, before := CreatedBy(steps, n), Settled(steps, f, s);
    var s' := RunCall(steps, f, s).0;
    CreatedFrom(steps, n);
    forall t: string ensures (t in s'.temp <==> t in s.temp) && (t in s.temp ==> s'.temp[t] == s.temp[t])
    {
      assert names[..|names|] == names;
      if t in names {
        CleanupSpares(before, names);
      } else {
        PrefixTemp(steps, s.perm, s.temp, n, t);
        CleanedOthers(before, names, {}, |names|, t);
      }
    }
    assert s'.temp.Keys == s.temp.Keys && s'.temp == s.temp;
    if !Commits(steps, f, s) {
      CleanupSpares(before, names);
      assert SparesPermanent(before, names);
    }
  }

  lemma {:induction false} CreatedFrom(steps: seq<Step>, n: nat)
    requires n <= |steps|
    ensures forall t :: t in CreatedBy(steps, n) ==> exists k :: 0 <= k < n && steps[k].creates == Some(t)
  {
    if n > 0 {
      CreatedFrom(steps, n - 1);
    }
  }

  /** DROP comes after ROLLBACK: where that undoes temporary tables too, a failing tool that made a
      temporary table under a permanent table's name loses the permanent one. */
  lemma ThrowCanDropPermanent(s: Session, bad: Step, make: Step, t: string, f: Faults)
    requires s.undo.None? && t in s.perm && t !in s.temp
    requires make.creates == Some(t) && make.effect(s.perm, s.temp) == Some(Effect(s.perm, s.temp[t := []], []))
    requires bad.effect(s.perm, s.temp[t := []]).None?
    requires f == Faults(false, false, false, {}, true)
    ensures RunCall([make, bad], f, s).1.threw && t !in RunCall([make, bad], f, s).0.perm
  {
    var steps := [make, bad];
    var none: seq<Rows> := [];
    assert none + [[]] == [[]];
    assert Prefix(steps, s.perm, s.temp, 0) == Some((s.perm, s.temp, none));
    assert Prefix(steps, s.perm, s.temp, 1) == Some((s.perm, s.temp[t := []], [[]]));
    assert Prefix(steps, s.perm, s.temp, 2).None?;
    assert Accepted(steps, s.perm, s.temp, 2) == 1;
    assert CreatedBy(steps, 0) == [] && CreatedBy(steps, 1) == [t];
    WholeCall(steps, f, s);
    assert Settled(steps, f, s) == s;
    assert Cleaned(s, [t], {}, 0) == s;
  }

  // ---------------------------------------------------------------------
  // The code, over a backend that is changed in place
  // ---------------------------------------------------------------------

  class Backend {
    var session: Session
    ghost var sent: seq<Command>

    constructor (session: Session)
      ensures this.session == session && sent == []
    {
      this.session := session;
      this.sent := [];
    }

    method Begin(refused: bool) returns (ok: bool)
      modifies this
      ensures ok == (!refused && old(session).undo.None?)
      ensures session ==
        if ok then old(session).(undo := Some((old(session).perm, old(session).temp))) else old(session)
      ensures sent == old(sent) + [Command.Begin]
    {
      sent := sent + [Command.Begin];
      ok := !refused && session.undo.None?;
      if ok {
        session := session.(undo := Some((session.perm, session.temp)));
      }
    }

    method Execute(step: Step, ghost i: nat) returns (rows: Option<Rows>)
      modifies this
      ensures var e := step.effect(old(session).perm, old(session).temp);
        && (e.None? ==> rows.None? && session == old(session))
        && (e.Some? ==> rows == Some(e.value.rows))
        && (e.Some? ==> session == old(session).(perm := e.value.perm, temp := e.value.temp))
      ensures sent == old(sent) + [Run(i)]
    {
      sent := sent + [Run(i)];
      match step.effect(session.perm, session.temp)
      case None => return None;
      case Some(e) =>
        session := session.(perm := e.perm, temp := e.temp);
        return Some(e.rows);
    }

    method Commit(refused: bool) returns (ok: bool)
      modifies this
      ensures ok == (!refused && old(session).undo.Some?)
      ensures session == if ok then old(session).(undo := None) else old(session)
      ensures sent == old(sent) + [Command.Commit]
    {
      sent := sent + [Command.Commit];
      ok := !refused && session.undo.Some?;
      if ok {
        session := session.(undo := None);
      }
    }

    method Rollback(refused: bool, undoesTemp: bool)
      modifies this
      ensures session ==
        if refused || old(session).undo.None? then old(session)
        else Session(old(session).undo.value.0,
          if undoesTemp then old(session).undo.value.1 else old(session).temp, None)
      ensures sent == old(sent) + [Command.Rollback]
    {
      sent := sent + [Command.Rollback];
      if !refused && session.undo.Some? {
        session := Session(session.undo.value.0, if undoesTemp then session.undo.value.1 else session.temp, None);
      }
    }

    method Drop(t: string, refused: bool)
      modifies this
      ensures session == if refused then old(session) else DropTable(old(session), t)
      ensures sent == old(sent) + [Command.Drop(t)]
    {
      sent := sent + [Command.Drop(t)];
      if !refused {
        session := DropTable(session, t);
      }
    }
  }

  /** The `finally` loop: errors are ignored, so every table gets its DROP. */
  method DropTempTables(backend: Backend, tables: seq<string>, steps: seq<Step>, f: Faults,
          ghost l0: Local) returns (ghost l: Local)
    requires Fits(steps, l0) && l0.pc == NextDrop(tables, 0) && l0.created == tables && backend.sent == l0.sent
    modifies backend
    ensures (backend.session, l) == Finish(steps, f, old(backend.session), l0)
    ensures backend.sent == l.sent
    ensures l == l0.(pc := AtRelease, sent := l.sent)
  {
    hide Remaining, Finish;
    l := l0;
    for j := 0 to |tables|
      invariant Fits(steps, l) && Finish(steps, f, old(backend.session), l0) == Finish(steps, f, backend.session, l)
      invariant l == l0.(pc := NextDrop(tables, j), sent := backend.sent)
    {
      Advance(steps, f, backend.session, l);
      ghost var next := Micro(steps, f, backend.session, l);
      backend.Drop(tables[j], j in f.drops);
      l := next.1;
    }
    FinishedThere(steps, f, backend.session, l);
  }

  /** `executeStepsRaw` between acquiring the lock and releasing it. `released` says whether control
      reaches the release: a rejected BEGIN stands outside the `try` and does not. */
  method ExecuteStepsRaw(backend: Backend, steps: seq<Step>, f: Faults) returns (result: Option<Rows>, threw: bool,
          released: bool)
    requires backend.sent == []
    modifies backend
    ensures var (s', l') := RunCall(steps, f, old(backend.session));
      && backend.session == s' && backend.sent == l'.sent
      && threw == l'.threw && released == l'.pc.AtRelease?
      && (!threw ==> result == Returned(l'))
  {
    hide Remaining, Returned, Finish, RunCall;
    ghost var s0 := backend.session;
    result := None;
    Opening(steps, f, s0);
    var begun := backend.Begin(f.begin);
    ghost var l := Micro(steps, f, s0, START).1;
    assert (backend.session, l) == Micro(steps, f, s0, START);
    if !begun {
      return None, true, false;
    }
    var returnResult, lastResult: Option<Rows> := None, None;
    var tempTablesCreated: seq<string> := [];
    threw := false;
    var i := 0;
    while i < |steps| && !threw
      invariant i <= |steps|
      invariant Fits(steps, l) && RunCall(steps, f, s0) == Finish(steps, f, backend.session, l)
      invariant backend.sent == l.sent
      invariant !threw ==>
        l == Local(NextStep(steps, i), tempTablesCreated, lastResult, returnResult, false, backend.sent)
      invariant threw ==> l.pc == AtRollback && l.created == tempTablesCreated && l.threw
      invariant !threw ==> |tempTablesCreated| <= i
      decreases |steps| - i, if threw then 0 else 1
    {
      Advance(steps, f, backend.session, l);
      ghost var next := Micro(steps, f, backend.session, l);
      var stepResult := backend.Execute(steps[i], i);
      l := next.1;
      assert backend.session == next.0;
      if stepResult.None? {
        threw := true;
      } else {
        lastResult := stepResult;
        if steps[i].isReturn {
          returnResult := stepResult;
        }
        if steps[i].creates.Some? {
          tempTablesCreated := tempTablesCreated + [steps[i].creates.value];
        }
        i := i + 1;
      }
    }
    if !threw {
      Advance(steps, f, backend.session, l);
      ghost var next := Micro(steps, f, backend.session, l);
      var committed := backend.Commit(f.commit);
      l := next.1;
      threw := !committed;
    }
    if threw {
      Advance(steps, f, backend.session, l);
      ghost var next := Micro(steps, f, backend.session, l);
      backend.Rollback(f.rollback, f.undoesTemp);
      l := next.1;
    }
    l := DropTempTables(backend, tempTablesCreated, steps, f, l);
    released := true;
    result := if returnResult.Some? then returnResult else lastResult;
    ReturnedIs(l);
  }

  lemma Opening(steps: seq<Step>, f: Faults, s: Session)
    ensures var (s1, l1) := Micro(steps, f, s, START);
      && Fits(steps, l1) && RunCall(steps, f, s) == Finish(steps, f, s1, l1)
      && (l1.pc.Rejected? ==> RunCall(steps, f, s) == (s1, l1))
  {
  }

  lemma Advance(steps: seq<Step>, f: Faults, s: Session, l: Local)
    requires Fits(steps, l) && !Ended(l)
    ensures var (s1, l1) := Micro(steps, f, s, l);
      Fits(steps, l1) && Finish(steps, f, s, l) == Finish(steps, f, s1, l1)
  {
    MicroFits(steps, f, s, l);
  }

  lemma FinishedThere(steps: seq<Step>, f: Faults, s: Session, l: Local)
    requires Fits(steps, l) && Ended(l)
    ensures Finish(steps, f, s, l) == (s, l)
  {
  }

  lemma ReturnedIs(l: Local)
    ensures Returned(l) == if l.marked.Some? then l.marked else l.last
  {
  }
}

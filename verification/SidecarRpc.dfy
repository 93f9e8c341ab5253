/**
  Request correlation in the TypeScript client (src/sidecar-client.ts): requests, responses,
  timeouts, process exits and respawns, in any order.
*/
module SidecarRpc {
  import opened Common

  datatype Outcome = Result(value: int) | ServerError(code: int) | TimedOut | Crashed

  /** `readline` is the reader recorded, `readers` are those still attached: starting a process replaces the
      recorded reader without closing it. `pending` maps a request's id to the process it was written to,
      `timers` holds the armed timers, `outstanding` the processes spawned whose exit event has not arrived,
      `dead` those of them whose exit code is set already, and `settled` lists, for each id ever issued,
      every attempt to settle its promise. */
  datatype Client = Client(
    process: Option<nat>,
    readline: Option<nat>,
    readers: set<nat>,
    requestId: nat,
    stopping: bool,
    pending: map<nat, nat>,
    timers: set<nat>,
    outstanding: set<nat>,
    dead: set<nat>,
    spawned: nat,
    settled: map<nat, seq<Outcome>>,
    crashes: nat)

  datatype Event =
    | EnsureRunning
    | Start
    | Stop
    | Send
    | Line(from: nat, id: nat, outcome: Outcome)
    | Noise(from: nat)
    | Timer(id: nat)
    | Die(process: nat)
    | Exit(process: nat)

  const FRESH := Client(None, None, {}, 0, false, map[], {}, {}, {}, 0, map[], 0)

  /** Lines arrive only through a reader still attached; a cleared timer does not fire. */
  predicate Enabled(s: Client, e: Event) {
    match e
    case Line(from, _, outcome) => from in s.readers && (outcome.Result? || outcome.ServerError?)
    case Noise(from) => from in s.readers
    case Timer(id) => id in s.timers
    case Die(p) => p in s.outstanding
    case Exit(p) => p in s.outstanding
    case _ => true
  }

  /** `this.process && this.process.exitCode === null` */
  predicate Alive(s: Client) {
    s.process.Some? && s.process.value !in s.dead
  }

  function Spawn(s: Client): Client {
    s.(stopping := false, process := Some(s.spawned), readline := Some(s.spawned), readers := s.readers + {s.spawned},
       outstanding := s.outstanding + {s.spawned}, spawned := s.spawned + 1)
  }

  /** The readers left when the recorded one is closed. */
  function Closed(readers: set<nat>, readline: Option<nat>): set<nat> {
    if readline.Some? then readers - {readline.value} else readers
  }

  /** One attempt to settle each promise of ids. */
  function SettleAll(settled: map<nat, seq<Outcome>>, ids: set<nat>, outcome: Outcome): (r: map<nat, seq<Outcome>>)
    ensures r.Keys == settled.Keys
  {
    map id | id in settled :: if id in ids then settled[id] + [outcome] else settled[id]
  }

  lemma OneMore(settled: map<nat, seq<Outcome>>, ids: set<nat>, id: nat, outcome: Outcome)
    requires id !in ids
    ensures SettleAll(SettleAll(settled, ids, outcome), {id}, outcome) == SettleAll(settled, ids + {id}, outcome)
  {
  }

  lemma NobodySettled(settled: map<nat, seq<Outcome>>, outcome: Outcome)
    ensures SettleAll(settled, {}, outcome) == settled
  {
  }

  function Apply(s: Client, e: Event): Client {
    match e
    case EnsureRunning => if Alive(s) then s else Spawn(s)
    case Start => Spawn(s)
    case Stop => s.(stopping := true, process := None, readline := None, readers := Closed(s.readers, s.readline))
    case Send =>
      if s.process.None? then s
      else
        var id := s.requestId + 1;
        s.(requestId := id, pending := s.pending[id := s.process.value], timers := s.timers + {id},
           settled := s.settled[id := []])
    case Line(_, id, outcome) =>
      if id !in s.pending then s
      else s.(pending := s.pending - {id}, timers := s.timers - {id}, settled := SettleAll(s.settled, {id}, outcome))
    case Noise(_) => s
    case Timer(id) =>
      s.(pending := s.pending - {id}, timers := s.timers - {id}, settled := SettleAll(s.settled, {id}, TimedOut))
    case Die(p) => s.(dead := s.dead + {p})
    case Exit(p) =>
      s.(pending := map[], timers := s.timers - s.pending.Keys,
         settled := SettleAll(s.settled, s.pending.Keys, Crashed),
         process := None, readline := None, readers := Closed(s.readers, s.readline),
           outstanding := s.outstanding - {p},
         crashes := s.crashes + if s.stopping then 0 else 1)
  }

  predicate Leads(s: Client, es: seq<Event>, t: Client)
    decreases |es|
  {
    if es == [] then s == t else Enabled(s, es[0]) && Leads(Apply(s, es[0]), es[1..], t)
  }

  // ---------------------------------------------------------------------
  // Every reachable state
  // ---------------------------------------------------------------------

  /** Every id issued is in exactly one of two places: pending, never settled, with its timer armed;
      or settled, once. */
  ghost predicate Inv(s: Client) {
    && (forall id :: id in s.settled <==> 1 <= id <= s.requestId)
    && (forall id :: id in s.pending ==> id in s.settled && s.settled[id] == [])
    && (forall id :: id in s.settled && id !in s.pending ==> |s.settled[id]| == 1)
    && s.timers == s.pending.Keys
    && s.readline == s.process
    && (s.process.Some? ==> s.process.value in s.outstanding)
    && (forall p :: p in s.outstanding || p in s.dead ==> p < s.spawned)
    && (forall id :: id in s.pending ==> s.pending[id] < s.spawned)
  }

  lemma StepKeeps(s: Client, e: Event)
    requires Inv(s) && Enabled(s, e)
    ensures Inv(Apply(s, e))
  {
  }

  lemma {:induction false} Reachable(s: Client, es: seq<Event>, t: Client)
    requires Inv(s) && Leads(s, es, t)
    ensures Inv(t)
    decreases |es|
  {
    hide Inv, Enabled, Apply;
    if es != [] {
      StepKeeps(s, es[0]);
      Reachable(Apply(s, es[0]), es[1..], t);
    }
  }

  lemma FreshInv()
    ensures Inv(FRESH)
  {
  }

  /** Over every run a request settles at most once; while it has not, its timer is armed; and the ids
      issued are 1, 2, ... whatever respawns lie between, so none is ever used again. */
  lemma SettlesAtMostOnce(es: seq<Event>, s: Client, id: nat)
    requires Leads(FRESH, es, s)
    ensures id in s.settled <==> 1 <= id <= s.requestId
    ensures id in s.settled ==> |s.settled[id]| <= 1
    ensures id in s.settled && s.settled[id] == [] <==> id in s.pending
    ensures id in s.pending <==> id in s.timers
  {
    FreshInv();
    Reachable(FRESH, es, s);
  }

  lemma SettledStays(s: Client, e: Event, id: nat)
    requires Inv(s) && Enabled(s, e) && id in s.settled && s.settled[id] != []
    ensures var t := Apply(s, e); id in t.settled && t.settled[id] == s.settled[id]
  {
  }

  /** Once settled, a request keeps its outcome whatever happens later. */
  lemma {:induction false} SettledForGood(s: Client, es: seq<Event>, t: Client, id: nat)
    requires Inv(s) && Leads(s, es, t) && id in s.settled && s.settled[id] != []
    ensures id in t.settled && t.settled[id] == s.settled[id]
    decreases |es|
  {
    hide Inv, Enabled, Apply;
    if es != [] {
      StepKeeps(s, es[0]);
      SettledStays(s, es[0], id);
      SettledForGood(Apply(s, es[0]), es[1..], t, id);
    }
  }

  /** A line settles the request whose id it carries and no other; a late or unknown id changes nothing. */
  lemma OnlyByItsOwnId(s: Client, from: nat, id: nat, outcome: Outcome)
    requires Inv(s) && Enabled(s, Line(from, id, outcome))
    ensures var t := Apply(s, Line(from, id, outcome));
      && (id in s.pending ==> t.settled[id] == [outcome] && id !in t.pending && id !in t.timers)
      && (id !in s.pending ==> t == s)
      && (forall other :: other in s.settled && other != id ==>
            t.settled[other] == s.settled[other] && (other in t.pending <==> other in s.pending))
  {
  }

  /** The events that can bring a request to this outcome. */
  ghost predicate Explains(es: seq<Event>, id: nat, outcome: Outcome) {
    match outcome
    case TimedOut => Timer(id) in es
    case Crashed => exists p :: Exit(p) in es
    case _ => exists from :: Line(from, id, outcome) in es
  }

  lemma ExplainsLonger(e: Event, es: seq<Event>, id: nat, outcome: Outcome)
    requires Explains(es, id, outcome) || Explains([e], id, outcome)
    ensures Explains([e] + es, id, outcome)
  {
    match outcome
    case TimedOut =>
    case Crashed =>
      var p :| Exit(p) in es || Exit(p) in [e];
      assert Exit(p) in [e] + es;
    case _ =>
      var from :| Line(from, id, outcome) in es || Line(from, id, outcome) in [e];
      assert Line(from, id, outcome) in [e] + es;
  }

  lemma FirstSettled(s: Client, e: Event, id: nat)
    requires Inv(s) && Enabled(s, e) && (id in s.settled ==> s.settled[id] == [])
    ensures var t := Apply(s, e);
      id in t.settled && t.settled[id] != [] ==> Explains([e], id, t.settled[id][0])
  {
    var t := Apply(s, e);
    if id in t.settled && t.settled[id] != [] {
      assert e in [e];
    }
  }

  /** Over every run, a response a request settles with came in on a line that carried its id; a timeout
      came from its own timer; and a crash from an exit. */
  lemma {:induction false} SettledByItsOwn(s: Client, es: seq<Event>, t: Client, id: nat)
    requires Inv(s) && Leads(s, es, t) && (id in s.settled ==> s.settled[id] == [])
    requires id in t.settled && t.settled[id] != []
    ensures Explains(es, id, t.settled[id][0])
    decreases |es|
  {
    hide Inv, Enabled, Apply, Explains;
    if es != [] {
      var e, next := es[0], Apply(s, es[0]);
      assert es == [e] + es[1..];
      StepKeeps(s, e);
      if id in next.settled && next.settled[id] != [] {
        FirstSettled(s, e, id);
        SettledForGood(next, es[1..], t, id);
      } else {
        SettledByItsOwn(next, es[1..], t, id);
      }
      ExplainsLonger(e, es[1..], id, t.settled[id][0]);
    }
  }

  /** An exit rejects everything pending, leaves nothing behind, and reports a crash unless it was asked for. */
  lemma ExitEmptiesPending(s: Client, p: nat)
    requires Inv(s) && Enabled(s, Exit(p))
    ensures var t := Apply(s, Exit(p));
      && t.pending == map[] && t.timers == {} && t.process.None?
      && (forall id :: id in s.pending ==> t.settled[id] == [Crashed])
      && t.crashes == s.crashes + (if s.stopping then 0 else 1)
  {
  }

  /** Making sure the sidecar runs leaves a process recorded whose exit code is not set: the old one, untouched,
      if there is one, else a new one. */
  lemma EnsuresAlive(s: Client)
    requires Inv(s)
    ensures var t := Apply(s, EnsureRunning);
      && t.process.Some? && t.process.value !in t.dead
      && (s.process.Some? && s.process.value !in s.dead ==> t == s)
      && (s.process.None? || s.process.value in s.dead ==>
            t.process.value !in s.outstanding && t.outstanding == s.outstanding + {t.process.value})
  {
  }

  // ---------------------------------------------------------------------
  // Exits that were asked for
  // ---------------------------------------------------------------------

  /** The state after es. */
  function Run(s: Client, es: seq<Event>): Client {
    if es == [] then s else Apply(Run(s, es[..|es| - 1]), es[|es| - 1])
  }

  lemma {:induction false} RunCons(s: Client, e: Event, es: seq<Event>)
    ensures Run(s, [e] + es) == Run(Apply(s, e), es)
  {
    hide Apply;
    if es == [] {
      assert [e] + es == [e] && [e][..0] == [];
      assert Run(s, [e][..0]) == s;
    } else {
      RunCons(s, e, es[..|es| - 1]);
      assert ([e] + es)[..|es|] == [e] + es[..|es| - 1];
    }
  }

  lemma {:induction false} LeadsRun(s: Client, es: seq<Event>, t: Client)
    requires Leads(s, es, t)
    ensures t == Run(s, es)
    decreases |es|
  {
    hide Apply, Enabled;
    if es != [] {
      LeadsRun(Apply(s, es[0]), es[1..], t);
      RunCons(s, es[0], es[1..]);
      assert es == [es[0]] + es[1..];
    }
  }

  /** A stop, or the start of a process. */
  predicate Governs(s: Client, e: Event) {
    e.Stop? || e.Start? || (e.EnsureRunning? && (s.process.None? || s.process.value in s.dead))
  }

  /** No event of es from position k on stops or starts anything. */
  predicate NoneGovernsFrom(s: Client, es: seq<Event>, k: nat) {
    forall j :: k <= j < |es| ==> !Governs(Run(s, es[..j]), es[j])
  }

  /** Whether an exit after es was asked for: the last stop or start of es is a stop, or there is none and the
      stop came before. */
  ghost predicate Asked(s: Client, es: seq<Event>) {
    || (exists k: nat :: k < |es| && es[k].Stop? && NoneGovernsFrom(s, es, k + 1))
    || (s.stopping && NoneGovernsFrom(s, es, 0))
  }

  lemma {:induction false} StoppingMeansAsked(s: Client, es: seq<Event>)
    ensures Run(s, es).stopping <==> Asked(s, es)
  {
    if es != [] {
      var before, last := es[..|es| - 1], es[|es| - 1];
      StoppingMeansAsked(s, before);
      StoppingStep(Run(s, before), last);
      hide Run, Apply, Governs;
      AskedStep(s, es);
    } else {
      assert Run(s, es) == s;
    }
  }

  lemma AskedStep(s: Client, es: seq<Event>)
    requires es != []
    ensures var before, last := es[..|es| - 1], es[|es| - 1];
      Asked(s, es) <==> if Governs(Run(s, before), last) then last.Stop? else Asked(s, before)
  {
    hide Run, NoneGovernsFrom;
    var n := |es| - 1;
    var before, last := es[..n], es[n];
    forall k: nat | k <= n
      ensures NoneGovernsFrom(s, es, k) <==> NoneGovernsFrom(s, before, k) && !Governs(Run(s, before), last)
    {
      GovernsLonger(s, es, k);
    }
    NoneGovernsNothing(s, es);
    if k: nat :| k < |before| && before[k].Stop? && NoneGovernsFrom(s, before, k + 1) {
      assert es[k].Stop?;
    }
    if k: nat :| k < |es| && es[k].Stop? && NoneGovernsFrom(s, es, k + 1) {
      assert k < n ==> before[k].Stop?;
    }
  }

  lemma GovernsLonger(s: Client, es: seq<Event>, k: nat)
    requires k < |es|
    ensures var before, last := es[..|es| - 1], es[|es| - 1];
      NoneGovernsFrom(s, es, k) <==> NoneGovernsFrom(s, before, k) && !Governs(Run(s, before), last)
  {
    hide Run, Governs;
    var before := es[..|es| - 1];
    assert forall j :: 0 <= j < |before| ==> es[..j] == before[..j] && es[j] == before[j];
  }

  lemma NoneGovernsNothing(s: Client, es: seq<Event>)
    ensures NoneGovernsFrom(s, es, |es|)
  {
  }

  lemma StoppingStep(s: Client, e: Event)
    ensures Apply(s, e).stopping == if Governs(s, e) then e.Stop? else s.stopping
    ensures e.Stop? ==> Governs(s, e)
  {
  }

  /** The exits of es that nobody asked for. */
  ghost function Crashes(s: Client, es: seq<Event>): nat {
    if es == [] then 0
    else
      var before, last := es[..|es| - 1], es[|es| - 1];
      Crashes(s, before) + if last.Exit? && !Asked(s, before) then 1 else 0
  }

  lemma {:induction false} CrashesAreCounted(s: Client, es: seq<Event>)
    ensures Run(s, es).crashes == s.crashes + Crashes(s, es)
  {
    hide Asked;
    if es != [] {
      CrashesAreCounted(s, es[..|es| - 1]);
      StoppingMeansAsked(s, es[..|es| - 1]);
    }
  }

  /** Over every run the crash handler is called once for each exit that was not asked for, and for no other. */
  lemma OnlyUnaskedExitsAreCrashes(es: seq<Event>, t: Client)
    requires Leads(FRESH, es, t)
    ensures t.crashes == Crashes(FRESH, es)
    ensures t.stopping <==> Asked(FRESH, es)
  {
    LeadsRun(FRESH, es, t);
    CrashesAreCounted(FRESH, es);
    StoppingMeansAsked(FRESH, es);
  }

  // ---------------------------------------------------------------------
  // One process at a time
  // ---------------------------------------------------------------------

  /** A process is started although the exit of an earlier one is still to come. */
  predicate Overlaps(s: Client, e: Event) {
    (e.Start? || (e.EnsureRunning? && !Alive(s))) && s.outstanding != {}
  }

  predicate NoOverlap(s: Client, es: seq<Event>)
    decreases |es|
  {
    es == [] || (!Overlaps(s, es[0]) && NoOverlap(Apply(s, es[0]), es[1..]))
  }

  /** Whatever is pending was written to the only process there is, and only its reader is attached. */
  predicate OneProcess(s: Client) {
    && Closed(s.readers, s.readline) == {}
    && (forall p, q :: p in s.outstanding && q in s.outstanding ==> p == q)
    && (forall id :: id in s.pending ==> s.pending[id] in s.outstanding)
  }

  lemma OneProcessStep(s: Client, e: Event)
    requires Inv(s) && Enabled(s, e) && OneProcess(s) && !Overlaps(s, e)
    ensures OneProcess(Apply(s, e))
  {
  }

  lemma ReaderIsOurs(s: Client)
    requires Inv(s) && OneProcess(s)
    ensures forall from, id, outcome :: Enabled(s, Line(from, id, outcome)) && id in s.pending ==> s.pending[id] == from
  {
    forall from | from in s.readers ensures s.readline == Some(from) {
      assert s.readline != Some(from) ==> from in Closed(s.readers, s.readline);
    }
  }

  /** As long as no process is started too early, an exit rejects only requests written to the process
      that has exited, and a response settles only a request written to the process it comes from. */
  lemma {:induction false} ExitsRejectTheirOwn(s: Client, es: seq<Event>, t: Client)
    requires Inv(s) && OneProcess(s) && Leads(s, es, t) && NoOverlap(s, es)
    ensures OneProcess(t)
    ensures forall p, id :: Enabled(t, Exit(p)) && id in t.pending ==> t.pending[id] == p
    ensures forall from, id, outcome :: Enabled(t, Line(from, id, outcome)) && id in t.pending ==> t.pending[id] == from
    decreases |es|
  {
    if es == [] {
      ReaderIsOurs(t);
    } else {
      hide Inv, Enabled, Apply, OneProcess, Overlaps;
      StepKeeps(s, es[0]);
      OneProcessStep(s, es[0]);
      ExitsRejectTheirOwn(Apply(s, es[0]), es[1..], t);
    }
  }

  /** A process started over another leaves the first one's reader attached, even by the stop that follows:
      its lines still come in. */
  lemma OldReaderStaysAttached(es: seq<Event>, id: nat)
    requires es == [Start, Start, Stop]
    ensures Leads(FRESH, es, Run(FRESH, es))
    ensures Enabled(Run(FRESH, es), Line(0, id, Result(0))) && !Enabled(Run(FRESH, es), Line(1, id, Result(0)))
  {
    var s1 := Apply(FRESH, Start);
    var s2 := Apply(s1, Start);
    var s3 := Apply(s2, Stop);
    assert s1.readers == {0} && s2.readers == {0, 1} && s3.readers == {0};
    assert Leads(s3, es[3..], s3);
    assert es[2..][1..] == es[3..] && Leads(s2, es[2..], s3);
    assert es[1..][1..] == es[2..] && Leads(s1, es[1..], s3);
    assert Leads(FRESH, es, s3);
    LeadsRun(FRESH, es, s3);
  }

  /** Every exit that can come finds only requests written to the process that exits. */
  ghost predicate OwnExits(s: Client) {
    forall p, id :: p in s.outstanding && id in s.pending ==> s.pending[id] == p
  }

  /** No continuation without an early start lets an exit reject another process's request. */
  ghost predicate Safe(s: Client) {
    forall es, t :: Leads(s, es, t) && NoOverlap(s, es) ==> OwnExits(t)
  }

  /** The condition is exact: an event leads to a state from which no exit can go wrong if and only if it does
      not start a process before the exit of an earlier one. */
  lemma OverlapIsExact(s: Client, e: Event)
    requires Inv(s) && OneProcess(s) && Enabled(s, e)
    ensures !Overlaps(s, e) <==> Safe(Apply(s, e))
  {
    var t := Apply(s, e);
    if Overlaps(s, e) {
      var p :| p in s.outstanding;
      var u := Apply(t, Send);
      var es := [Send];
      assert Leads(u, es[1..], u) && NoOverlap(u, es[1..]);
      assert Leads(t, es, u) && NoOverlap(t, es);
      assert u.pending[u.requestId] == s.spawned && p in u.outstanding && p < s.spawned;
    } else {
      hide Inv, Apply, Enabled, OneProcess, Overlaps;
      StepKeeps(s, e);
      OneProcessStep(s, e);
      forall es, u | Leads(t, es, u) && NoOverlap(t, es) ensures OwnExits(u) {
        ExitsRejectTheirOwn(t, es, u);
        forall p, id | p in u.outstanding && id in u.pending ensures u.pending[id] == p {
          assert Enabled(u, Exit(p)) by { ExitEnabled(u, p); }
        }
      }
    }
  }

  lemma ExitEnabled(s: Client, p: nat)
    requires p in s.outstanding
    ensures Enabled(s, Exit(p))
  {
  }

  /** Without that: stop, start, send, and the first process's exit event rejects the request written to
      the second, and forgets the second although it is alive. */
  lemma LateExitHitsSuccessor(es: seq<Event>)
    requires es == [Start, Stop, Start, Send]
    ensures exists s ::
      && Leads(FRESH, es, s) && Enabled(s, Exit(0)) && s.pending == map[1 := 1]
      && Apply(s, Exit(0)).settled == map[1 := [Crashed]]
      && Apply(s, Exit(0)).process.None? && 1 in Apply(s, Exit(0)).outstanding
  {
    var s1 := Apply(FRESH, Start);
    var s2 := Apply(s1, Stop);
    var s3 := Apply(s2, Start);
    var s4 := Apply(s3, Send);
    assert Leads(s4, es[4..], s4);
    assert Leads(s3, es[3..], s4);
    assert Leads(s2, es[2..], s4);
    assert es[1..][1..] == es[2..];
    assert Leads(s1, es[1..], s4);
    assert Leads(FRESH, es, s4);
    assert s4.pending == map[1 := 1] && s4.settled == map[1 := []];
    assert s4.pending.Keys == {1};
    var crash: seq<Outcome> := [Crashed];
    assert s4.settled[1] == [] && s4.settled[1] + crash == crash;
    assert SettleAll(s4.settled, {1}, Crashed)[1] == crash;
    assert SettleAll(s4.settled, {1}, Crashed) == map[1 := [Crashed]];
  }

  // ---------------------------------------------------------------------
  // The client, changed in place
  // ---------------------------------------------------------------------

  class SidecarClient {
    var process: Option<nat>
    var readline: Option<nat>
    ghost var readers: set<nat>
    var requestId: nat
    var stopping: bool
    var pending: map<nat, nat>
    var timers: set<nat>
    ghost var outstanding: set<nat>
    var dead: set<nat>
    var spawned: nat
    ghost var settled: map<nat, seq<Outcome>>
    var crashes: nat

    ghost function Model(): Client
      reads this
    {
      Client(process, readline, readers, requestId, stopping, pending, timers, outstanding, dead, spawned,
             settled, crashes)
    }

    constructor ()
      ensures Model() == FRESH
    {
      process, readline, requestId, stopping := None, None, 0, false;
      pending, timers, outstanding, dead, spawned := map[], {}, {}, {}, 0;
      readers := {};
      settled, crashes := map[], 0;
    }

    method StartProcess()
      modifies this
      ensures Model() == Apply(old(Model()), Start)
    {
      stopping := false;
      process := Some(spawned);
      readline := Some(spawned);
      readers := readers + {spawned};
      outstanding := outstanding + {spawned};
      spawned := spawned + 1;
    }

    method StopProcess()
      modifies this
      ensures Model() == Apply(old(Model()), Stop)
    {
      stopping := true;
      if process.Some? {
        process := None;
      }
      if readline.Some? {
        readers := readers - {readline.value};
        readline := None;
      }
    }

    method EnsureProcess()
      modifies this
      ensures Model() == Apply(old(Model()), EnsureRunning)
    {
      if process.Some? && process.value !in dead {
        return;
      }
      StartProcess();
    }

    /** `send` after its first `await`: None stands for "Sidecar not running". */
    method SendRequest() returns (id: Option<nat>)
      modifies this
      ensures Model() == Apply(old(Model()), Send)
      ensures id == if old(process).Some? then Some(old(requestId) + 1) else None
    {
      if process.None? {
        return None;
      }
      requestId := requestId + 1;
      timers := timers + {requestId};
      pending := pending[requestId := process.value];
      settled := settled[requestId := []];
      return Some(requestId);
    }

    method HandleResponse(from: nat, id: nat, outcome: Outcome)
      requires Enabled(Model(), Line(from, id, outcome))
      modifies this
      ensures Model() == Apply(old(Model()), Line(from, id, outcome))
    {
      if id !in pending {
        return;
      }
      pending := pending - {id};
      timers := timers - {id};
      settled := SettleAll(settled, {id}, outcome);
    }

    method HandleTimer(id: nat)
      requires Enabled(Model(), Timer(id))
      modifies this
      ensures Model() == Apply(old(Model()), Timer(id))
    {
      timers := timers - {id};
      pending := pending - {id};
      settled := SettleAll(settled, {id}, TimedOut);
    }

    /** The loop of the exit handler, in whatever order: each entry's wrapper clears its timer and rejects. */
    method RejectAll()
      modifies this`timers, this`settled
      ensures timers == old(timers) - pending.Keys
      ensures settled == SettleAll(old(settled), pending.Keys, Crashed)
    {
      hide SettleAll;
      NobodySettled(settled, Crashed);
      assert pending.Keys - pending.Keys == {};
      var left := pending.Keys;
      while left != {}
        invariant left <= pending.Keys
        invariant timers == old(timers) - (pending.Keys - left)
        invariant settled == SettleAll(old(settled), pending.Keys - left, Crashed)
        decreases left
      {
        var id :| id in left;
        OneMore(old(settled), pending.Keys - left, id, Crashed);
        assert pending.Keys - (left - {id}) == (pending.Keys - left) + {id};
        timers := timers - {id};
        settled := SettleAll(settled, {id}, Crashed);
        left := left - {id};
      }
      assert pending.Keys - left == pending.Keys;
    }

    method HandleExit(p: nat)
      requires Enabled(Model(), Exit(p))
      modifies this
      ensures Model() == Apply(old(Model()), Exit(p))
    {
      hide SettleAll;
      RejectAll();
      pending := map[];
      process := None;
      if readline.Some? {
        readers := readers - {readline.value};
        readline := None;
      }
      outstanding := outstanding - {p};
      if !stopping {
        crashes := crashes + 1;
      }
    }
  }
}

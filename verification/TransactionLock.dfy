/**
  The per-connection transaction lock (src/connection-manager.ts, `acquireTransactionLock`) under
  every interleaving of any number of multi-step tool calls. Each `await` is a step boundary; a
  promise is a token, and resolving it puts the token into `resolved`.
*/
module TransactionLock {
  import opened Common
  import opened StepsTool

  // ---------------------------------------------------------------------
  // The lock table
  // ---------------------------------------------------------------------

  datatype Table = Table(locks: map<string, nat>, resolved: set<nat>, next: nat)

  function Take(t: Table, conn: string): Table {
    Table(t.locks[conn := t.next], t.resolved, t.next + 1)
  }

  function Free(t: Table, conn: string, token: nat): Table {
    Table(t.locks - {conn}, t.resolved + {token}, t.next)
  }

  /** The `transactionLocks` field and the two synchronous stretches of code that write it. */
  class Locks {
    var table: Table

    constructor ()
      ensures table == Table(map[], {}, 0)
    {
      table := Table(map[], {}, 0);
    }

    /** From the loop test to the next `await`: either the promise to wait for, or the lock. */
    method TryAcquire(conn: string) returns (waitFor: Option<nat>, token: nat)
      modifies this
      ensures conn in old(table).locks ==> waitFor == Some(old(table).locks[conn]) && table == old(table)
      ensures conn !in old(table).locks ==>
        waitFor == None && token == old(table).next && table == Take(old(table), conn)
    {
      if conn in table.locks {
        return Some(table.locks[conn]), 0;
      }
      waitFor, token := None, table.next;
      table := Table(table.locks[conn := token], table.resolved, token + 1);
    }

    /** The function handed out: it deletes whatever entry the connection has, then resolves its own promise. */
    method Release(conn: string, token: nat)
      modifies this
      ensures table == Free(old(table), conn, token)
    {
      table := table.(locks := table.locks - {conn});
      table := table.(resolved := table.resolved + {token});
    }
  }

  // ---------------------------------------------------------------------
  // Calls and their interleavings
  // ---------------------------------------------------------------------

  datatype Call = Call(conn: string, steps: seq<Step>, faults: Faults)

  /** `Ready` is about to test the lock. `Stuck` is a call whose BEGIN was rejected: it has thrown, and
      its lock is never released. */
  datatype Phase =
    | Ready
    | Waiting(token: nat)
    | Inside(token: nat, local: Local)
    | Stuck(token: nat, local: Local)
    | Finished(local: Local)

  /** `owner`, `history` and `sent` record what happened: who holds each lock, which calls have
      released it in which order, and every command each session received with the call it came from. */
  datatype State = State(
    phases: seq<Phase>,
    table: Table,
    sessions: map<string, Session>,
    owner: map<string, nat>,
    history: map<string, seq<nat>>,
    sent: map<string, seq<(nat, Command)>>)

  datatype Event = TestLock(i: nat) | Wake(i: nat) | Work(i: nat) | Release(i: nat)

  predicate Knows(calls: seq<Call>, s: State) {
    && |s.phases| == |calls|
    && forall i :: 0 <= i < |calls| ==>
         var c := calls[i].conn; c in s.sessions && c in s.history && c in s.sent
  }

  predicate Enabled(calls: seq<Call>, s: State, e: Event) {
    && Knows(calls, s) && e.i < |calls|
    && match e
       case TestLock(i) => s.phases[i].Ready?
       case Wake(i) => s.phases[i].Waiting? && s.phases[i].token in s.table.resolved
       case Work(i) => s.phases[i].Inside? && Fits(calls[i].steps, s.phases[i].local) && !Ended(s.phases[i].local)
       case Release(i) => s.phases[i].Inside? && s.phases[i].local.pc.AtRelease?
  }

  function Apply(calls: seq<Call>, s: State, e: Event): State
    requires Enabled(calls, s, e)
  {
    var c := calls[e.i].conn;
    match e
    case TestLock(i) =>
      if c in s.table.locks then s.(phases := s.phases[i := Waiting(s.table.locks[c])])
      else s.(phases := s.phases[i := Inside(s.table.next, START)], table := Take(s.table, c), owner := s.owner[c := i])
    case Wake(i) => s.(phases := s.phases[i := Ready])
    case Work(i) =>
      var Inside(token, l) := s.phases[i];
      var (session, l') := Micro(calls[i].steps, calls[i].faults, s.sessions[c], l);
      s.(phases := s.phases[i := if l'.pc.Rejected? then Stuck(token, l') else Inside(token, l')],
         sessions := s.sessions[c := session],
         sent := s.sent[c := s.sent[c] + Tag(i, l'.sent[|l.sent|..])])
    case Release(i) =>
      var Inside(token, l) := s.phases[i];
      s.(phases := s.phases[i := Finished(l)], table := Free(s.table, c, token),
         owner := s.owner - {c}, history := s.history[c := s.history[c] + [i]])
  }

  function Tag(i: nat, commands: seq<Command>): seq<(nat, Command)> {
    seq(|commands|, k requires 0 <= k < |commands| => (i, commands[k]))
  }

  /** Before any call has started. */
  predicate Initial(calls: seq<Call>, init: map<string, Session>, s: State) {
    && Knows(calls, s)
    && s.phases == seq(|calls|, _ => Ready)
    && s.table == Table(map[], {}, 0)
    && s.sessions == init && s.owner == map[]
    && (forall c :: c in s.history ==> s.history[c] == [])
    && (forall c :: c in s.sent ==> s.sent[c] == [])
  }

  /** es leads from s0 to s. */
  predicate Leads(calls: seq<Call>, s0: State, es: seq<Event>, s: State)
    decreases |es|
  {
    if es == [] then s0 == s
    else Enabled(calls, s0, es[0]) && Leads(calls, Apply(calls, s0, es[0]), es[1..], s)
  }

  // ---------------------------------------------------------------------
  // One call after the other
  // ---------------------------------------------------------------------

  predicate Indices(calls: seq<Call>, h: seq<nat>) {
    forall k :: 0 <= k < |h| ==> h[k] < |calls|
  }

  /** The session after the calls of h have run alone, one by one. */
  function Serial(calls: seq<Call>, init: Session, h: seq<nat>): Session
    requires Indices(calls, h)
  {
    if h == [] then init
    else
      var call := calls[h[|h| - 1]];
      RunCall(call.steps, call.faults, Serial(calls, init, h[..|h| - 1])).0
  }

  /** Where the k-th of them ends. */
  function SerialLocal(calls: seq<Call>, init: Session, h: seq<nat>, k: nat): Local
    requires Indices(calls, h) && k < |h|
  {
    RunCall(calls[h[k]].steps, calls[h[k]].faults, Serial(calls, init, h[..k])).1
  }

  /** The commands they send. */
  function SerialSent(calls: seq<Call>, init: Session, h: seq<nat>): seq<(nat, Command)>
    requires Indices(calls, h)
  {
    if h == [] then []
    else
      SerialSent(calls, init, h[..|h| - 1])
      + Tag(h[|h| - 1], SerialLocal(calls, init, h, |h| - 1).sent)
  }

  // ---------------------------------------------------------------------
  // What every reachable state satisfies
  // ---------------------------------------------------------------------

  predicate Holds(p: Phase) { p.Inside? || p.Stuck? }

  /** Call i: a holder is the recorded owner; a waiter waits for the live token or a resolved one. */
  predicate CallInv(calls: seq<Call>, s: State, i: nat)
    requires Knows(calls, s) && i < |calls|
  {
    var c := calls[i].conn;
    match s.phases[i]
    case Ready => true
    case Waiting(t) => t < s.table.next && (t in s.table.resolved || (c in s.table.locks && s.table.locks[c] == t))
    case Inside(_, l) => c in s.owner && s.owner[c] == i && Fits(calls[i].steps, l) && !l.pc.Rejected?
    case Stuck(_, l) => c in s.owner && s.owner[c] == i && l.pc.Rejected?
    case Finished(_) => i in s.history[c]
  }

  /** The current holder is part way through the call it would make alone. */
  predicate HolderInv(calls: seq<Call>, s: State, c: string, base: Session, before: seq<(nat, Command)>)
    requires Knows(calls, s) && c in s.owner && c in s.sessions && c in s.sent
  {
    var o := s.owner[c];
    && o < |calls| && calls[o].conn == c && Holds(s.phases[o])
    && s.table.locks[c := s.phases[o].token] == s.table.locks
    && s.phases[o].token < s.table.next && s.phases[o].token !in s.table.resolved
    && (s.phases[o].Inside? ==>
          && Fits(calls[o].steps, s.phases[o].local)
          && Finish(calls[o].steps, calls[o].faults, s.sessions[c], s.phases[o].local)
             == RunCall(calls[o].steps, calls[o].faults, base))
    && (s.phases[o].Stuck? ==>
          s.sessions[c] == base && RunCall(calls[o].steps, calls[o].faults, base).1.pc.Rejected?)
    && s.sent[c] == before + Tag(o, s.phases[o].local.sent)
  }

  /** Connection c: between calls its session is what the released calls make of it one by one. */
  predicate ConnInv(calls: seq<Call>, init: map<string, Session>, s: State, c: string)
    requires Knows(calls, s)
  {
    && c in init && c in s.sessions && c in s.history && c in s.sent
    && Indices(calls, s.history[c])
    && (c in s.table.locks <==> c in s.owner)
    && (forall k :: 0 <= k < |s.history[c]| ==>
          && calls[s.history[c][k]].conn == c
          && s.phases[s.history[c][k]] == Finished(SerialLocal(calls, init[c], s.history[c], k))
          && SerialLocal(calls, init[c], s.history[c], k).pc.AtRelease?)
    && (if c in s.owner
        then HolderInv(calls, s, c, Serial(calls, init[c], s.history[c]), SerialSent(calls, init[c], s.history[c]))
        else s.sessions[c] == Serial(calls, init[c], s.history[c])
             && s.sent[c] == SerialSent(calls, init[c], s.history[c]))
  }

  predicate TableInv(t: Table) {
    && (forall c :: c in t.locks ==> t.locks[c] < t.next && t.locks[c] !in t.resolved)
    && (forall c, d :: c in t.locks && d in t.locks && c != d ==> t.locks[c] != t.locks[d])
    && (forall r :: r in t.resolved ==> r < t.next)
  }

  ghost predicate Inv(calls: seq<Call>, init: map<string, Session>, s: State) {
    && Knows(calls, s)
    && TableInv(s.table)
    && (forall i :: 0 <= i < |calls| ==> CallInv(calls, s, i))
    && (forall i :: 0 <= i < |calls| ==> ConnInv(calls, init, s, calls[i].conn))
  }

  // ---------------------------------------------------------------------
  // Preservation
  // ---------------------------------------------------------------------

  lemma TagAppend(i: nat, a: seq<Command>, b: seq<Command>)
    ensures Tag(i, a) + Tag(i, b) == Tag(i, a + b)
  {
  }

  lemma SerialSnoc(calls: seq<Call>, init: Session, h: seq<nat>, i: nat)
    requires Indices(calls, h) && i < |calls|
    ensures Indices(calls, h + [i])
    ensures var r := RunCall(calls[i].steps, calls[i].faults, Serial(calls, init, h));
      && Serial(calls, init, h + [i]) == r.0
      && SerialLocal(calls, init, h + [i], |h|) == r.1
      && SerialSent(calls, init, h + [i]) == SerialSent(calls, init, h) + Tag(i, r.1.sent)
    ensures forall k :: 0 <= k < |h| ==> SerialLocal(calls, init, h + [i], k) == SerialLocal(calls, init, h, k)
  {
    hide RunCall;
    var g := h + [i];
    assert g[..|g| - 1] == h;
    forall k | 0 <= k < |h| ensures SerialLocal(calls, init, g, k) == SerialLocal(calls, init, h, k) {
      assert g[..k] == h[..k];
    }
  }

  predicate Agree<V(==)>(m: map<string, V>, m': map<string, V>, c: string) {
    (c in m <==> c in m') && (c in m ==> m'[c] == m[c])
  }

  /** Nothing recorded about connection c differs. */
  predicate SameAt(s: State, s': State, c: string) {
    && Agree(s.sessions, s'.sessions, c) && Agree(s.history, s'.history, c) && Agree(s.sent, s'.sent, c)
    && Agree(s.table.locks, s'.table.locks, c) && Agree(s.owner, s'.owner, c)
  }

  /** Event i only concerns its own call and its own connection. */
  ghost predicate Concerns(calls: seq<Call>, s: State, s': State, i: nat)
    requires i < |calls| && Knows(calls, s)
  {
    && Knows(calls, s')
    && (forall j :: 0 <= j < |calls| && j != i ==> s'.phases[j] == s.phases[j])
    && (forall c :: c != calls[i].conn ==> SameAt(s, s', c))
    && s.table.next <= s'.table.next && s.table.resolved <= s'.table.resolved
    && TableInv(s'.table)
  }

  /** A connection whose holders, tokens and records did not change keeps its invariant. */
  lemma ConnUntouched(calls: seq<Call>, init: map<string, Session>, s: State, s': State, c: string)
    requires Knows(calls, s) && Knows(calls, s') && ConnInv(calls, init, s, c)
    requires forall i :: 0 <= i < |calls| && calls[i].conn == c && !s.phases[i].Ready? && !s.phases[i].Waiting? ==>
      s'.phases[i] == s.phases[i]
    requires SameAt(s, s', c) && s.table.next <= s'.table.next && TableInv(s'.table)
    ensures ConnInv(calls, init, s', c)
  {
    hide Serial, SerialLocal, SerialSent, Finish, RunCall, Fits;
  }

  lemma OthersUntouched(calls: seq<Call>, init: map<string, Session>, s: State, s': State, i: nat)
    requires Inv(calls, init, s) && i < |calls| && Concerns(calls, s, s', i)
    ensures forall j :: 0 <= j < |calls| && calls[j].conn != calls[i].conn ==> ConnInv(calls, init, s', calls[j].conn)
  {
    forall j | 0 <= j < |calls| && calls[j].conn != calls[i].conn ensures ConnInv(calls, init, s', calls[j].conn) {
      hide HolderInv, CallInv, ConnInv;
      assert ConnInv(calls, init, s, calls[j].conn);
      ConnUntouched(calls, init, s, s', calls[j].conn);
    }
  }

  /** The other calls: those on other connections see no difference; one on the same connection is not
      inside, and if it waits for the token that goes it finds it resolved. */
  lemma CallsUntouched(calls: seq<Call>, init: map<string, Session>, s: State, s': State, i: nat)
    requires Inv(calls, init, s) && i < |calls| && Concerns(calls, s, s', i)
    requires var c := calls[i].conn;
      && c in s'.history && (forall j :: j in s.history[c] ==> j in s'.history[c])
      && (c in s.owner ==> s.owner[c] == i)
      && (c in s.table.locks ==> Agree(s.table.locks, s'.table.locks, c) || s.table.locks[c] in s'.table.resolved)
    ensures forall j :: 0 <= j < |calls| && j != i ==> CallInv(calls, s', j)
  {
    forall j | 0 <= j < |calls| && j != i ensures CallInv(calls, s', j) {
      hide Fits, ConnInv;
      assert CallInv(calls, s, j);
      if calls[j].conn != calls[i].conn {
        assert SameAt(s, s', calls[j].conn);
      }
    }
  }

  lemma TestLockKeeps(calls: seq<Call>, init: map<string, Session>, s: State, i: nat)
    requires Inv(calls, init, s) && Enabled(calls, s, TestLock(i))
    ensures Inv(calls, init, Apply(calls, s, TestLock(i)))
  {
    hide Serial, SerialLocal, SerialSent, Finish, Fits, RunCall;
    var c, s' := calls[i].conn, Apply(calls, s, TestLock(i));
    assert ConnInv(calls, init, s, c) && CallInv(calls, s, i);
    if c in s.table.locks {
      WaitsOnly(calls, init, s, s', i);
    } else {
      StartsFresh(calls, i);
      var before := SerialSent(calls, init[c], s.history[c]);
      assert before + Tag(i, []) == before;
      assert ConnInv(calls, init, s', c);
      OthersUntouched(calls, init, s, s', i);
      CallsUntouched(calls, init, s, s', i);
      assert CallInv(calls, s', i);
    }
  }

  /** Only call i moves, and neither before nor after does it hold the lock. */
  lemma WaitsOnly(calls: seq<Call>, init: map<string, Session>, s: State, s': State, i: nat)
    requires Inv(calls, init, s) && i < |calls|
    requires s' == s.(phases := s'.phases) && |s'.phases| == |calls|
    requires forall j :: 0 <= j < |calls| && j != i ==> s'.phases[j] == s.phases[j]
    requires (s.phases[i].Ready? || s.phases[i].Waiting?) && Knows(calls, s') && CallInv(calls, s', i)
    ensures Inv(calls, init, s')
  {
    hide CallInv, HolderInv;
    forall j | 0 <= j < |calls| ensures ConnInv(calls, init, s', calls[j].conn) {
      hide ConnInv;
      assert ConnInv(calls, init, s, calls[j].conn);
      ConnUntouched(calls, init, s, s', calls[j].conn);
    }
    forall j | 0 <= j < |calls| && j != i ensures CallInv(calls, s', j) {
      hide ConnInv;
      assert CallInv(calls, s, j);
      SamePhase(calls, s, s', j);
    }
  }

  lemma SamePhase(calls: seq<Call>, s: State, s': State, j: nat)
    requires Knows(calls, s) && Knows(calls, s') && j < |calls| && CallInv(calls, s, j)
    requires s' == s.(phases := s'.phases) && s'.phases[j] == s.phases[j]
    ensures CallInv(calls, s', j)
  {
  }

  lemma StartsFresh(calls: seq<Call>, i: nat)
    requires i < |calls|
    ensures Fits(calls[i].steps, START) && !START.pc.Rejected?
    ensures forall s :: Finish(calls[i].steps, calls[i].faults, s, START) == RunCall(calls[i].steps, calls[i].faults, s)
  {
  }

  lemma WakeKeeps(calls: seq<Call>, init: map<string, Session>, s: State, i: nat)
    requires Inv(calls, init, s) && Enabled(calls, s, Wake(i))
    ensures Inv(calls, init, Apply(calls, s, Wake(i)))
  {
    hide ConnInv;
    var s' := Apply(calls, s, Wake(i));
    assert CallInv(calls, s', i);
    WaitsOnly(calls, init, s, s', i);
  }

  /** A call that holds the lock is its recorded owner, and its token is the live one. */
  lemma OwnerOf(calls: seq<Call>, init: map<string, Session>, s: State, i: nat)
    requires Inv(calls, init, s) && i < |calls| && Holds(s.phases[i])
    ensures var c := calls[i].conn;
      && c in s.owner && s.owner[c] == i
      && c in s.table.locks && s.table.locks[c] == s.phases[i].token
  {
    hide Serial, SerialLocal, SerialSent, Finish, Fits, RunCall;
    assert CallInv(calls, s, i) && ConnInv(calls, init, s, calls[i].conn);
  }

  /** A call whose BEGIN is rejected changes nothing. */
  lemma RejectedKeepsSession(steps: seq<Step>, f: Faults, s: Session)
    ensures RunCall(steps, f, s).1.pc.Rejected? ==> RunCall(steps, f, s).0 == s
    ensures RunCall(steps, f, s).1.pc.Rejected? <==> f.begin || s.undo.Some?
  {
    if f.begin || s.undo.Some? {
      Opening(steps, f, s);
    } else {
      WholeCall(steps, f, s);
    }
  }

  lemma WorkKeepsConn(calls: seq<Call>, init: map<string, Session>, s: State, i: nat)
    requires Inv(calls, init, s) && Enabled(calls, s, Work(i))
    ensures ConnInv(calls, init, Apply(calls, s, Work(i)), calls[i].conn)
    ensures CallInv(calls, Apply(calls, s, Work(i)), i)
  {
    hide Serial, SerialLocal, SerialSent, Finish, Fits, RunCall, Micro;
    var call, c, s' := calls[i], calls[i].conn, Apply(calls, s, Work(i));
    assert ConnInv(calls, init, s, c) && CallInv(calls, s, i);
    var l := s.phases[i].local;
    var (session, l') := Micro(call.steps, call.faults, s.sessions[c], l);
    Advance(call.steps, call.faults, s.sessions[c], l);
    MicroFits(call.steps, call.faults, s.sessions[c], l);
    var base, before := Serial(calls, init[c], s.history[c]), SerialSent(calls, init[c], s.history[c]);
    TagAppend(i, l.sent, l'.sent[|l.sent|..]);
    assert l.sent + l'.sent[|l.sent|..] == l'.sent;
    Assoc(before, Tag(i, l.sent), Tag(i, l'.sent[|l.sent|..]));
    if l'.pc.Rejected? {
      FinishedThere(call.steps, call.faults, session, l');
      RejectedKeepsSession(call.steps, call.faults, base);
    }
  }

  lemma WorkKeeps(calls: seq<Call>, init: map<string, Session>, s: State, i: nat)
    requires Inv(calls, init, s) && Enabled(calls, s, Work(i))
    ensures Inv(calls, init, Apply(calls, s, Work(i)))
  {
    WorkKeepsConn(calls, init, s, i);
    hide Serial, SerialLocal, SerialSent, Finish, Fits, RunCall, Micro, HolderInv;
    hide ConnInv, CallInv;
    var s' := Apply(calls, s, Work(i));
    OwnerOf(calls, init, s, i);
    WorkConcerns(calls, s, i);
    hide Concerns, TableInv;
    OthersUntouched(calls, init, s, s', i);
    CallsUntouched(calls, init, s, s', i);
  }

  lemma WorkConcerns(calls: seq<Call>, s: State, i: nat)
    requires Enabled(calls, s, Work(i)) && TableInv(s.table)
    ensures Concerns(calls, s, Apply(calls, s, Work(i)), i)
  {
    hide TableInv, Micro, Fits;
  }

  lemma ReleaseKeepsConn(calls: seq<Call>, init: map<string, Session>, s: State, i: nat)
    requires Inv(calls, init, s) && Enabled(calls, s, Release(i))
    ensures ConnInv(calls, init, Apply(calls, s, Release(i)), calls[i].conn)
  {
    hide Serial, SerialLocal, SerialSent, Finish, Fits, RunCall;
    var call, c, s' := calls[i], calls[i].conn, Apply(calls, s, Release(i));
    assert ConnInv(calls, init, s, c) && CallInv(calls, s, i);
    var h := s.history[c];
    FinishedThere(call.steps, call.faults, s.sessions[c], s.phases[i].local);
    SerialSnoc(calls, init[c], h, i);
    forall k | 0 <= k < |s'.history[c]|
      ensures calls[s'.history[c][k]].conn == c
        && s'.phases[s'.history[c][k]] == Finished(SerialLocal(calls, init[c], s'.history[c], k))
        && SerialLocal(calls, init[c], s'.history[c], k).pc.AtRelease?
    {
      if k < |h| {
        assert s'.history[c][k] == h[k] != i;
      }
    }
  }

  lemma ReleaseKeeps(calls: seq<Call>, init: map<string, Session>, s: State, i: nat)
    requires Inv(calls, init, s) && Enabled(calls, s, Release(i))
    ensures Inv(calls, init, Apply(calls, s, Release(i)))
  {
    ReleaseKeepsConn(calls, init, s, i);
    hide Serial, SerialLocal, SerialSent, Finish, Fits, RunCall, ConnInv, CallInv;
    var s' := Apply(calls, s, Release(i));
    OwnerOf(calls, init, s, i);
    ReleaseConcerns(calls, s, i);
    hide Concerns, TableInv;
    OthersUntouched(calls, init, s, s', i);
    CallsUntouched(calls, init, s, s', i);
  }

  lemma ReleaseConcerns(calls: seq<Call>, s: State, i: nat)
    requires Enabled(calls, s, Release(i)) && TableInv(s.table)
    requires var c := calls[i].conn; c in s.table.locks && s.table.locks[c] == s.phases[i].token
    ensures var s' := Apply(calls, s, Release(i));
      && Concerns(calls, s, s', i) && CallInv(calls, s', i) && TableInv(s'.table)
  {
    FreeKeeps(s.table, calls[i].conn);
    hide TableInv;
  }

  lemma FreeKeeps(t: Table, c: string)
    requires TableInv(t) && c in t.locks
    ensures TableInv(Free(t, c, t.locks[c]))
  {
  }

  lemma StepKeeps(calls: seq<Call>, init: map<string, Session>, s: State, e: Event)
    requires Inv(calls, init, s) && Enabled(calls, s, e)
    ensures Inv(calls, init, Apply(calls, s, e))
  {
    hide Inv, Enabled, Apply;
    match e
    case TestLock(i) => TestLockKeeps(calls, init, s, i);
    case Wake(i) => WakeKeeps(calls, init, s, i);
    case Work(i) => WorkKeeps(calls, init, s, i);
    case Release(i) => ReleaseKeeps(calls, init, s, i);
  }

  lemma InitialInv(calls: seq<Call>, init: map<string, Session>, s: State)
    requires Initial(calls, init, s)
    ensures Inv(calls, init, s)
  {
  }

  /** Every state that any interleaving can reach satisfies the invariant. */
  lemma {:induction false} Reachable(calls: seq<Call>, init: map<string, Session>, s0: State, es: seq<Event>, s: State)
    requires Inv(calls, init, s0) && Leads(calls, s0, es, s)
    ensures Inv(calls, init, s)
    decreases |es|
  {
    hide Inv, Enabled, Apply;
    if es != [] {
      StepKeeps(calls, init, s0, es[0]);
      Reachable(calls, init, Apply(calls, s0, es[0]), es[1..], s);
    }
  }

  // ---------------------------------------------------------------------
  // What the lock guarantees
  // ---------------------------------------------------------------------

  ghost predicate ReachableFrom(calls: seq<Call>, init: map<string, Session>, s: State) {
    exists s0, es :: Initial(calls, init, s0) && Leads(calls, s0, es, s)
  }

  lemma ReachableInv(calls: seq<Call>, init: map<string, Session>, s: State)
    requires ReachableFrom(calls, init, s)
    ensures Inv(calls, init, s)
  {
    var s0, es :| Initial(calls, init, s0) && Leads(calls, s0, es, s);
    InitialInv(calls, init, s0);
    Reachable(calls, init, s0, es, s);
  }

  /** At most one call per connection is between acquire and release, and it holds the live token. */
  lemma MutualExclusion(calls: seq<Call>, init: map<string, Session>, s: State, i: nat, j: nat)
    requires ReachableFrom(calls, init, s) && Knows(calls, s) && i < |calls| && j < |calls|
    requires calls[i].conn == calls[j].conn && Holds(s.phases[i]) && Holds(s.phases[j])
    ensures i == j
    ensures calls[i].conn in s.table.locks && s.table.locks[calls[i].conn] == s.phases[i].token
  {
    ReachableInv(calls, init, s);
    assert CallInv(calls, s, i) && CallInv(calls, s, j) && ConnInv(calls, init, s, calls[i].conn);
  }

  /** No wake-up is lost: a waiter waits for a promise that is resolved already or that the present
      holder will resolve. */
  lemma NoLostWakeUp(calls: seq<Call>, init: map<string, Session>, s: State, i: nat)
    requires ReachableFrom(calls, init, s) && Knows(calls, s) && i < |calls| && s.phases[i].Waiting?
    ensures s.phases[i].token in s.table.resolved
      || exists j ::
           && 0 <= j < |calls| && calls[j].conn == calls[i].conn
           && Holds(s.phases[j]) && s.phases[j].token == s.phases[i].token
  {
    ReachableInv(calls, init, s);
    assert CallInv(calls, s, i) && ConnInv(calls, init, s, calls[i].conn);
    var c := calls[i].conn;
    if s.phases[i].token !in s.table.resolved {
      var o := s.owner[c];
      assert calls[o].conn == c && Holds(s.phases[o]) && s.phases[o].token == s.phases[i].token;
    }
  }

  /** Serializability: on a connection nobody holds, the session and everything it was sent are what
      the released calls produce running alone, one after the other in the order of their releases;
      and each of them came back with what it would have come back with then. */
  lemma Serializable(calls: seq<Call>, init: map<string, Session>, s: State, c: string)
    requires ReachableFrom(calls, init, s) && Knows(calls, s)
    requires (exists i :: 0 <= i < |calls| && calls[i].conn == c)
    requires forall i :: 0 <= i < |calls| && calls[i].conn == c ==> !Holds(s.phases[i])
    ensures c in init && c in s.history && c in s.sessions && c in s.sent && Indices(calls, s.history[c])
    ensures s.sessions[c] == Serial(calls, init[c], s.history[c])
    ensures s.sent[c] == SerialSent(calls, init[c], s.history[c])
    ensures forall k :: 0 <= k < |s.history[c]| ==>
      s.phases[s.history[c][k]] == Finished(SerialLocal(calls, init[c], s.history[c], k))
    ensures forall i :: 0 <= i < |calls| && calls[i].conn == c && s.phases[i].Finished? ==> i in s.history[c]
  {
    ReachableInv(calls, init, s);
    hide Serial, SerialSent, SerialLocal;
    var i :| 0 <= i < |calls| && calls[i].conn == c;
    assert ConnInv(calls, init, s, c);
    forall j | 0 <= j < |calls| && calls[j].conn == c && s.phases[j].Finished? ensures j in s.history[c] {
      assert CallInv(calls, s, j);
    }
  }

  /** At any moment a session has received whole blocks - BEGIN, steps, COMMIT and/or ROLLBACK, DROPs -
      of the released calls, and then the beginning of the present holder's. */
  lemma WholeBlocks(calls: seq<Call>, init: map<string, Session>, s: State, i: nat)
    requires ReachableFrom(calls, init, s) && Knows(calls, s) && i < |calls|
    ensures var c := calls[i].conn;
      && c in init && Indices(calls, s.history[c])
      && (c !in s.owner ==> s.sent[c] == SerialSent(calls, init[c], s.history[c]))
      && (c in s.owner ==>
            && s.owner[c] < |calls| && Holds(s.phases[s.owner[c]])
            && s.sent[c] == SerialSent(calls, init[c], s.history[c]) + Tag(s.owner[c], s.phases[s.owner[c]].local.sent))
      && (forall k :: 0 <= k < |s.history[c]| ==>
            var call := calls[s.history[c][k]];
            SerialLocal(calls, init[c], s.history[c], k).sent ==
              Block(call.steps, call.faults, Serial(calls, init[c], s.history[c][..k])))
  {
    ReachableInv(calls, init, s);
    hide Block, Finish, Fits;
    var c := calls[i].conn;
    assert ConnInv(calls, init, s, c);
    var h := s.history[c];
    forall k | 0 <= k < |h|
      ensures SerialLocal(calls, init[c], h, k).sent ==
        Block(calls[h[k]].steps, calls[h[k]].faults, Serial(calls, init[c], h[..k]))
    {
      hide Serial, RunCall;
      var call, base := calls[h[k]], Serial(calls, init[c], h[..k]);
      RejectedKeepsSession(call.steps, call.faults, base);
      WholeCall(call.steps, call.faults, base);
    }
  }

  /** As long as no BEGIN of the connection has been rejected, a call on it that has not finished
      means that some call on it can take its next step. */
  lemma NoDeadlock(calls: seq<Call>, init: map<string, Session>, s: State, i: nat)
    requires ReachableFrom(calls, init, s) && Knows(calls, s) && i < |calls| && !s.phases[i].Finished?
    requires forall j :: 0 <= j < |calls| && calls[j].conn == calls[i].conn ==> !s.phases[j].Stuck?
    ensures exists e: Event :: Enabled(calls, s, e) && calls[e.i].conn == calls[i].conn
  {
    ReachableInv(calls, init, s);
    hide Serial, SerialSent, SerialLocal, Finish, RunCall, Fits;
    var c := calls[i].conn;
    assert CallInv(calls, s, i) && ConnInv(calls, init, s, c);
    if c in s.owner {
      var o := s.owner[c];
      assert CallInv(calls, s, o);
      var e := if s.phases[o].local.pc.AtRelease? then Release(o) else Work(o);
      assert Enabled(calls, s, e);
    } else {
      var e := if s.phases[i].Ready? then TestLock(i) else Wake(i);
      assert Enabled(calls, s, e);
    }
  }

  /** A rejected BEGIN leaves the lock held for good: the call stays where it is, the entry stays in the
      table, and no other call on the connection ever gets past it. */
  lemma {:induction false} RejectedBeginBlocks(calls: seq<Call>, init: map<string, Session>, s: State, es: seq<Event>,
          s': State, i: nat)
    requires Inv(calls, init, s) && Leads(calls, s, es, s') && i < |calls| && s.phases[i].Stuck?
    ensures Inv(calls, init, s') && s'.phases[i] == s.phases[i]
    ensures calls[i].conn in s'.table.locks && s'.table.locks[calls[i].conn] == s.phases[i].token
    ensures forall j :: 0 <= j < |calls| && j != i && calls[j].conn == calls[i].conn ==> !Holds(s'.phases[j])
    ensures s'.sessions[calls[i].conn] == s.sessions[calls[i].conn]
      && s'.history[calls[i].conn] == s.history[calls[i].conn]
    decreases |es|
  {
    hide Serial, SerialSent, SerialLocal, Finish, RunCall, Fits, Micro, ConnInv, CallInv, TableInv;
    OwnerOf(calls, init, s, i);
    forall j | 0 <= j < |calls| && j != i && calls[j].conn == calls[i].conn ensures !Holds(s.phases[j]) {
      if Holds(s.phases[j]) {
        OwnerOf(calls, init, s, j);
      }
    }
    if es != [] {
      hide Inv;
      StepKeeps(calls, init, s, es[0]);
      StuckStays(calls, s, es[0], i);
      RejectedBeginBlocks(calls, init, Apply(calls, s, es[0]), es[1..], s', i);
    }
  }

  /** No event can move the stuck call or what is recorded about its connection. */
  lemma StuckStays(calls: seq<Call>, s: State, e: Event, i: nat)
    requires Enabled(calls, s, e) && i < |calls| && s.phases[i].Stuck? && calls[i].conn in s.table.locks
    requires forall j :: 0 <= j < |calls| && j != i && calls[j].conn == calls[i].conn ==> !Holds(s.phases[j])
    ensures var c, s' := calls[i].conn, Apply(calls, s, e);
      s'.phases[i] == s.phases[i] && s'.sessions[c] == s.sessions[c] && s'.history[c] == s.history[c]
  {
    hide Micro, Fits;
  }

  // ---------------------------------------------------------------------
  // No run goes on for ever
  // ---------------------------------------------------------------------

  /** Calls of connection c among the first n that have not released yet. */
  function Unfinished(calls: seq<Call>, s: State, c: string, n: nat): nat
    requires |s.phases| == |calls| && n <= |calls|
  {
    if n == 0 then 0
    else Unfinished(calls, s, c, n - 1) + if calls[n - 1].conn == c && !s.phases[n - 1].Finished? then 1 else 0
  }

  /** How much is still to happen to call i. A waiter can be woken in vain only as often as some other
      call of its connection releases. */
  function Weight(calls: seq<Call>, s: State, i: nat): int
    requires |s.phases| == |calls| && i < |calls|
  {
    var u := Unfinished(calls, s, calls[i].conn, |calls|);
    var work := 2 * |calls[i].steps| + 7;
    match s.phases[i]
    case Ready => 2 * u + 1 + work
    case Waiting(t) => (if t in s.table.resolved then 2 * u + 2 else 2 * u) + work
    case Inside(_, l) => Remaining(calls[i].steps, l) + 1
    case _ => 0
  }

  function Total(calls: seq<Call>, s: State, n: nat): int
    requires |s.phases| == |calls| && n <= |calls|
  {
    if n == 0 then 0 else Total(calls, s, n - 1) + Weight(calls, s, n - 1)
  }

  lemma {:induction false} UnfinishedStep(calls: seq<Call>, s: State, s': State, c: string, i: nat, n: nat)
    requires |s.phases| == |s'.phases| == |calls| && i < |calls| && n <= |calls|
    requires forall j :: 0 <= j < |calls| && j != i ==> s'.phases[j] == s.phases[j]
    requires !s.phases[i].Finished?
    ensures Unfinished(calls, s', c, n)
         == Unfinished(calls, s, c, n) - if i < n && calls[i].conn == c && s'.phases[i].Finished? then 1 else 0
  {
    if n > 0 {
      UnfinishedStep(calls, s, s', c, i, n - 1);
    }
  }

  lemma {:induction false} TotalFalls(calls: seq<Call>, s: State, s': State, i: nat, n: nat)
    requires |s.phases| == |s'.phases| == |calls| && i < |calls| && n <= |calls|
    requires forall j :: 0 <= j < |calls| ==> Weight(calls, s', j) <= Weight(calls, s, j) - if j == i then 1 else 0
    ensures Total(calls, s', n) <= Total(calls, s, n) - if i < n then 1 else 0
  {
    hide Weight;
    if n > 0 {
      TotalFalls(calls, s, s', i, n - 1);
    }
  }

  lemma WeightOfOthers(calls: seq<Call>, init: map<string, Session>, s: State, e: Event, j: nat)
    requires Inv(calls, init, s) && Enabled(calls, s, e) && j < |calls| && j != e.i
    ensures Weight(calls, Apply(calls, s, e), j) <= Weight(calls, s, j)
  {
    hide Micro, Fits, Remaining, Unfinished, ConnInv, TableInv;
    var s' := Apply(calls, s, e);
    UnfinishedStep(calls, s, s', calls[j].conn, e.i, |calls|);
    if e.Release? && s.phases[j].Waiting? && s.phases[j].token == s.phases[e.i].token {
      OwnerOf(calls, init, s, e.i);
      assert CallInv(calls, s, j);
      if calls[j].conn != calls[e.i].conn && s.phases[j].token !in s.table.resolved {
        assert TableInv(s.table);
        TokensDiffer(s.table, calls[j].conn, calls[e.i].conn);
      }
    }
  }

  lemma TokensDiffer(t: Table, c: string, d: string)
    requires TableInv(t) && c in t.locks && d in t.locks && c != d
    ensures t.locks[c] != t.locks[d]
  {
  }

  lemma WeightOfOwn(calls: seq<Call>, init: map<string, Session>, s: State, e: Event)
    requires Inv(calls, init, s) && Enabled(calls, s, e)
    ensures Weight(calls, Apply(calls, s, e), e.i) < Weight(calls, s, e.i)
  {
    hide Micro, Fits, Unfinished, HolderInv;
    var s', call := Apply(calls, s, e), calls[e.i];
    UnfinishedStep(calls, s, s', call.conn, e.i, |calls|);
    match e
    case TestLock(i) =>
      assert ConnInv(calls, init, s, call.conn) && TableInv(s.table);
    case Wake(i) =>
    case Work(i) =>
      hide Remaining;
      MicroFits(call.steps, call.faults, s.sessions[call.conn], s.phases[i].local);
      RemainingPositive(call.steps, s.phases[i].local);
    case Release(i) =>
  }

  lemma RemainingPositive(steps: seq<Step>, l: Local)
    requires Fits(steps, l)
    ensures Remaining(steps, l) >= 0
  {
  }

  lemma {:induction false} TotalPositive(calls: seq<Call>, s: State, n: nat)
    requires |s.phases| == |calls| && n <= |calls|
    requires forall j :: 0 <= j < |calls| ==> Weight(calls, s, j) >= 0
    ensures Total(calls, s, n) >= 0
  {
    hide Weight;
    if n > 0 {
      TotalPositive(calls, s, n - 1);
    }
  }

  lemma WeightPositive(calls: seq<Call>, init: map<string, Session>, s: State, i: nat)
    requires Inv(calls, init, s) && i < |calls|
    ensures Weight(calls, s, i) >= 0
  {
    hide Fits, Remaining, ConnInv, TableInv;
    assert CallInv(calls, s, i);
    if s.phases[i].Inside? {
      RemainingPositive(calls[i].steps, s.phases[i].local);
    }
  }

  lemma NothingNegative(calls: seq<Call>, init: map<string, Session>, s: State)
    requires Inv(calls, init, s)
    ensures Total(calls, s, |calls|) >= 0
  {
    hide Weight, ConnInv, CallInv;
    forall j | 0 <= j < |calls| ensures Weight(calls, s, j) >= 0 {
      WeightPositive(calls, init, s, j);
    }
    TotalPositive(calls, s, |calls|);
  }

  /** A run is never longer than the work its first state holds. With `NoDeadlock`, a run that cannot be
      extended has finished every call of each connection none of whose BEGINs was rejected. */
  lemma {:induction false} RunsAreBounded(calls: seq<Call>, init: map<string, Session>, s0: State, es: seq<Event>,
          s: State)
    requires Inv(calls, init, s0) && Leads(calls, s0, es, s)
    ensures |es| <= Total(calls, s0, |calls|)
    decreases |es|
  {
    hide Inv, Enabled, Apply, Weight, Total;
    if es == [] {
      NothingNegative(calls, init, s0);
    } else {
      var s1 := Apply(calls, s0, es[0]);
      StepKeeps(calls, init, s0, es[0]);
      RunsAreBounded(calls, init, s1, es[1..], s);
      EventWorks(calls, init, s0, es[0]);
    }
  }

  lemma EventWorks(calls: seq<Call>, init: map<string, Session>, s: State, e: Event)
    requires Inv(calls, init, s) && Enabled(calls, s, e)
    ensures Total(calls, Apply(calls, s, e), |calls|) < Total(calls, s, |calls|)
  {
    hide Inv, Weight, Total;
    var s' := Apply(calls, s, e);
    WeightOfOwn(calls, init, s, e);
    forall j | 0 <= j < |calls| ensures Weight(calls, s', j) <= Weight(calls, s, j) - if j == e.i then 1 else 0 {
      if j != e.i { WeightOfOthers(calls, init, s, e, j); }
    }
    TotalFalls(calls, s, s', e.i, |calls|);
  }

  /** In a reachable state where nothing more can happen, every call has come back, except those on a
      connection whose lock a rejected BEGIN has left held. */
  lemma QuietMeansDone(calls: seq<Call>, init: map<string, Session>, s: State, i: nat)
    requires ReachableFrom(calls, init, s) && Knows(calls, s) && i < |calls|
    requires forall e: Event :: !Enabled(calls, s, e)
    ensures s.phases[i].Finished? ||
      exists j :: 0 <= j < |calls| && calls[j].conn == calls[i].conn && s.phases[j].Stuck?
  {
    hide Enabled;
    if !s.phases[i].Finished? &&
      forall j :: 0 <= j < |calls| && calls[j].conn == calls[i].conn ==> !s.phases[j].Stuck? {
      NoDeadlock(calls, init, s, i);
    }
  }

  // ---------------------------------------------------------------------
  // Which calls get stuck
  // ---------------------------------------------------------------------

  /** The last call released on c threw, and its ROLLBACK was refused: the error is swallowed, and the
      session is left inside its transaction. */
  predicate Wedged(calls: seq<Call>, s: State, c: string)
    requires Knows(calls, s)
  {
    && c in s.history && s.history[c] != []
    && var last := s.history[c][|s.history[c]| - 1];
       last < |calls| && calls[last].faults.rollback && s.phases[last].Finished? && s.phases[last].local.threw
  }

  /** A call that comes back leaves its transaction open if and only if it threw and ROLLBACK was refused. */
  lemma LeavesOpen(steps: seq<Step>, f: Faults, s: Session)
    requires RunCall(steps, f, s).1.pc.AtRelease?
    ensures RunCall(steps, f, s).0.undo.Some? <==> RunCall(steps, f, s).1.threw && f.rollback
  {
    hide RunCall, Block, Answer, Returned;
    RejectedKeepsSession(steps, f, s);
    WholeCall(steps, f, s);
  }

  lemma SerialOpen(calls: seq<Call>, init: Session, h: seq<nat>)
    requires Indices(calls, h) && init.undo.None?
    requires h != [] ==> SerialLocal(calls, init, h, |h| - 1).pc.AtRelease?
    ensures Serial(calls, init, h).undo.Some? <==>
      h != [] && calls[h[|h| - 1]].faults.rollback && SerialLocal(calls, init, h, |h| - 1).threw
  {
    hide RunCall;
    if h != [] {
      var call := calls[h[|h| - 1]];
      LeavesOpen(call.steps, call.faults, Serial(calls, init, h[..|h| - 1]));
    }
  }

  /** Between calls the session is inside a transaction if and only if the connection is wedged. */
  lemma WedgedIsOpen(calls: seq<Call>, init: map<string, Session>, s: State, i: nat)
    requires Inv(calls, init, s) && i < |calls| && calls[i].conn in init && init[calls[i].conn].undo.None?
    ensures var c := calls[i].conn;
      Indices(calls, s.history[c]) && (Wedged(calls, s, c) <==> Serial(calls, init[c], s.history[c]).undo.Some?)
  {
    hide Serial, SerialLocal, SerialSent, HolderInv;
    var c := calls[i].conn;
    assert ConnInv(calls, init, s, c);
    SerialOpen(calls, init[c], s.history[c]);
  }

  lemma {:induction false} PastBegin(steps: seq<Step>, f: Faults, s: Session, l: Local)
    requires Fits(steps, l) && !l.pc.AtBegin? && !l.pc.Rejected?
    ensures Finish(steps, f, s, l).1.pc.AtRelease?
    decreases Remaining(steps, l)
  {
    if !Ended(l) {
      MicroFits(steps, f, s, l);
      var (s1, l1) := Micro(steps, f, s, l);
      PastBegin(steps, f, s1, l1);
    }
  }

  /** A call past its BEGIN is stuck if and only if its own BEGIN was to be refused or the call released
      before it has wedged the connection. */
  lemma StuckIff(calls: seq<Call>, init: map<string, Session>, s: State, i: nat)
    requires ReachableFrom(calls, init, s) && Knows(calls, s) && i < |calls|
    requires calls[i].conn in init && init[calls[i].conn].undo.None?
    requires Holds(s.phases[i]) && !s.phases[i].local.pc.AtBegin?
    ensures s.phases[i].Stuck? <==> calls[i].faults.begin || Wedged(calls, s, calls[i].conn)
  {
    ReachableInv(calls, init, s);
    StuckIffInv(calls, init, s, i);
  }

  lemma StuckIffInv(calls: seq<Call>, init: map<string, Session>, s: State, i: nat)
    requires Inv(calls, init, s) && i < |calls|
    requires calls[i].conn in init && init[calls[i].conn].undo.None?
    requires Holds(s.phases[i]) && !s.phases[i].local.pc.AtBegin?
    ensures s.phases[i].Stuck? <==> calls[i].faults.begin || Wedged(calls, s, calls[i].conn)
  {
    hide Serial, SerialLocal, SerialSent, Finish, RunCall, Fits, Wedged;
    var call, c := calls[i], calls[i].conn;
    OwnerOf(calls, init, s, i);
    WedgedIsOpen(calls, init, s, i);
    assert ConnInv(calls, init, s, c) && CallInv(calls, s, i);
    RejectedKeepsSession(call.steps, call.faults, Serial(calls, init[c], s.history[c]));
    if s.phases[i].Inside? {
      PastBegin(call.steps, call.faults, s.sessions[c], s.phases[i].local);
    }
  }

  /** Hence, in terms of the calls alone: on a connection idle at first, whose calls' BEGINs and ROLLBACKs are
      not refused, every call has come back once nothing more can happen. */
  lemma HealthyCallsFinish(calls: seq<Call>, init: map<string, Session>, s: State, i: nat)
    requires ReachableFrom(calls, init, s) && Knows(calls, s) && i < |calls|
    requires calls[i].conn in init && init[calls[i].conn].undo.None?
    requires forall j :: 0 <= j < |calls| && calls[j].conn == calls[i].conn ==>
      !calls[j].faults.begin && !calls[j].faults.rollback
    requires forall e: Event :: !Enabled(calls, s, e)
    ensures s.phases[i].Finished?
  {
    hide Enabled;
    QuietMeansDone(calls, init, s, i);
    if !s.phases[i].Finished? {
      ReachableInv(calls, init, s);
      hide ConnInv;
      var c := calls[i].conn;
      assert ConnInv(calls, init, s, c);
      LastIsOfConn(calls, init, s, c);
      var j :| 0 <= j < |calls| && calls[j].conn == c && s.phases[j].Stuck?;
      assert CallInv(calls, s, j);
      StuckIff(calls, init, s, j);
    }
  }

  lemma LastIsOfConn(calls: seq<Call>, init: map<string, Session>, s: State, c: string)
    requires Knows(calls, s) && ConnInv(calls, init, s, c)
    ensures s.history[c] != [] ==>
      var last := s.history[c][|s.history[c]| - 1]; last < |calls| && calls[last].conn == c
  {
    hide Serial, SerialLocal, SerialSent, HolderInv;
  }

  /** Neither condition can be spared. A call whose BEGIN is refused never comes back. */
  lemma RefusedBeginNeverFinishes(calls: seq<Call>, init: map<string, Session>, s: State, i: nat)
    requires ReachableFrom(calls, init, s) && Knows(calls, s) && i < |calls| && calls[i].faults.begin
    ensures !s.phases[i].Finished?
  {
    ReachableInv(calls, init, s);
    hide RunCall, SerialSent, HolderInv;
    var c := calls[i].conn;
    assert CallInv(calls, s, i) && ConnInv(calls, init, s, c);
    if s.phases[i].Finished? {
      var h := s.history[c];
      var k :| 0 <= k < |h| && h[k] == i;
      RejectedKeepsSession(calls[i].steps, calls[i].faults, Serial(calls, init[c], h[..k]));
    }
  }

  /** And once a connection is wedged, no other call on it ever comes back. */
  lemma {:induction false} WedgedForGood(calls: seq<Call>, init: map<string, Session>, s: State, es: seq<Event>,
          s': State, i: nat)
    requires Inv(calls, init, s) && Leads(calls, s, es, s') && i < |calls|
    requires calls[i].conn in init && init[calls[i].conn].undo.None? && Wedged(calls, s, calls[i].conn)
    ensures Inv(calls, init, s') && Wedged(calls, s', calls[i].conn)
    ensures s'.history[calls[i].conn] == s.history[calls[i].conn]
    ensures s'.phases[i].Finished? <==> s.phases[i].Finished?
    decreases |es|
  {
    hide Inv, Enabled, Apply, Wedged;
    if es != [] {
      StepKeeps(calls, init, s, es[0]);
      WedgedStep(calls, init, s, es[0], i);
      WedgedForGood(calls, init, Apply(calls, s, es[0]), es[1..], s', i);
    }
  }

  lemma WedgedStep(calls: seq<Call>, init: map<string, Session>, s: State, e: Event, i: nat)
    requires Inv(calls, init, s) && Enabled(calls, s, e) && i < |calls|
    requires calls[i].conn in init && init[calls[i].conn].undo.None? && Wedged(calls, s, calls[i].conn)
    ensures Knows(calls, Apply(calls, s, e))
    ensures var s', c := Apply(calls, s, e), calls[i].conn;
      && Wedged(calls, s', c) && s'.history[c] == s.history[c]
      && (s'.phases[i].Finished? <==> s.phases[i].Finished?)
  {
    hide Micro, Fits, ConnInv, CallInv, TableInv;
    if e.Release? && calls[e.i].conn == calls[i].conn {
      StuckIffInv(calls, init, s, e.i);
    }
  }

  // ---------------------------------------------------------------------
  // Getting there
  // ---------------------------------------------------------------------

  lemma Then(calls: seq<Call>, s: State, e: Event, es: seq<Event>, t: State)
    requires Enabled(calls, s, e) && Leads(calls, Apply(calls, s, e), es, t)
    ensures Leads(calls, s, [e] + es, t)
  {
    hide Enabled, Apply;
    assert ([e] + es)[1..] == es;
  }

  lemma {:induction false} Join(calls: seq<Call>, s: State, es: seq<Event>, m: State, fs: seq<Event>, t: State)
    requires Leads(calls, s, es, m) && Leads(calls, m, fs, t)
    ensures Leads(calls, s, es + fs, t)
    decreases |es|
  {
    hide Enabled, Apply;
    if es == [] {
      assert es + fs == fs;
    } else {
      Join(calls, Apply(calls, s, es[0]), es[1..], m, fs, t);
      assert (es + fs)[0] == es[0] && (es + fs)[1..] == es[1..] + fs;
    }
  }

  /** What call i does once it has the lock, if nobody else moves. */
  predicate RanAlone(calls: seq<Call>, s: State, t: State, i: nat)
    requires i < |calls| && Knows(calls, s) && s.phases[i].Inside? && Fits(calls[i].steps, s.phases[i].local)
  {
    var c := calls[i].conn;
    var (session, l) := Finish(calls[i].steps, calls[i].faults, s.sessions[c], s.phases[i].local);
    && Knows(calls, t) && t.table == s.table && t.owner == s.owner && t.history == s.history
    && t.sessions[c] == session
    && t.phases == s.phases[i := if l.pc.Rejected? then Stuck(s.phases[i].token, l) else Inside(s.phases[i].token, l)]
  }

  lemma {:induction false} RunAlone(calls: seq<Call>, s: State, i: nat) returns (es: seq<Event>, t: State)
    requires Knows(calls, s) && i < |calls| && s.phases[i].Inside?
    requires Fits(calls[i].steps, s.phases[i].local) && !s.phases[i].local.pc.Rejected?
    ensures Leads(calls, s, es, t) && RanAlone(calls, s, t, i)
    decreases Remaining(calls[i].steps, s.phases[i].local)
  {
    hide Finish, Micro, Fits, Remaining;
    var call, c, l := calls[i], calls[i].conn, s.phases[i].local;
    if Ended(l) {
      FinishedThere(call.steps, call.faults, s.sessions[c], l);
      es, t := [], s;
      assert s.phases[i := s.phases[i]] == s.phases;
    } else {
      var s1 := Apply(calls, s, Work(i));
      Advance(call.steps, call.faults, s.sessions[c], l);
      MicroFits(call.steps, call.faults, s.sessions[c], l);
      RemainingPositive(call.steps, l);
      var none: seq<Event> := [];
      if s1.phases[i].Stuck? {
        FinishedThere(call.steps, call.faults, s1.sessions[c], s1.phases[i].local);
        es, t := [Work(i)] + none, s1;
        Then(calls, s, Work(i), none, t);
      } else {
        var rest, u := RunAlone(calls, s1, i);
        es, t := [Work(i)] + rest, u;
        Then(calls, s, Work(i), rest, t);
      }
    }
  }

  /** From a state in which nobody holds the lock: the test succeeds and the call runs to its end. */
  lemma TakeAndRun(calls: seq<Call>, s: State, i: nat) returns (es: seq<Event>, t: State)
    requires Knows(calls, s) && i < |calls| && s.phases[i].Ready? && calls[i].conn !in s.table.locks
    ensures Leads(calls, s, es, t) && Knows(calls, t)
    ensures var c := calls[i].conn; var (session, l) := RunCall(calls[i].steps, calls[i].faults, s.sessions[c]);
      && t.sessions[c] == session && |t.phases| == |s.phases| && t.history == s.history
      && t.phases == s.phases[i := if l.pc.Rejected? then Stuck(s.table.next, l) else Inside(s.table.next, l)]
  {
    hide Finish, Micro, RunCall;
    StartsFresh(calls, i);
    var s1 := Apply(calls, s, TestLock(i));
    var rest, u := RunAlone(calls, s1, i);
    es, t := [TestLock(i)] + rest, u;
    Then(calls, s, TestLock(i), rest, t);
    assert s1.phases[i := t.phases[i]] == s.phases[i := t.phases[i]];
  }

  /** From the start, a call whose BEGIN is refused gets stuck. */
  lemma RefusedBeginGetsStuck(calls: seq<Call>, init: map<string, Session>, s0: State, i: nat)
    requires Initial(calls, init, s0) && i < |calls| && calls[i].faults.begin
    ensures exists es, s :: Leads(calls, s0, es, s) && Knows(calls, s) && s.phases[i].Stuck?
  {
    hide RunCall, Finish;
    var es, s := TakeAndRun(calls, s0, i);
    RejectedKeepsSession(calls[i].steps, calls[i].faults, s0.sessions[calls[i].conn]);
  }

  /** The holder comes back leaving the session inside a transaction: the next call is refused its BEGIN. */
  lemma NextGetsStuck(calls: seq<Call>, s: State, i: nat, j: nat) returns (es: seq<Event>, t: State)
    requires Knows(calls, s) && i < |calls| && j < |calls| && i != j && calls[i].conn == calls[j].conn
    requires Enabled(calls, s, Release(i)) && s.phases[j].Ready? && s.sessions[calls[i].conn].undo.Some?
    ensures Leads(calls, s, es, t) && Knows(calls, t) && t.phases[i].Finished? && t.phases[j].Stuck?
  {
    hide RunCall, Finish, Micro, Fits;
    var u := Apply(calls, s, Release(i));
    var rest, v := TakeAndRun(calls, u, j);
    RejectedKeepsSession(calls[j].steps, calls[j].faults, u.sessions[calls[j].conn]);
    es, t := [Release(i)] + rest, v;
    Then(calls, s, Release(i), rest, t);
  }

  /** From the start, a call that fails and whose ROLLBACK is refused comes back, and the next call on the
      connection, with no fault of its own, gets stuck. */
  lemma RefusedRollbackWedges(calls: seq<Call>, init: map<string, Session>, s0: State, i: nat, j: nat)
    requires Initial(calls, init, s0) && i < |calls| && j < |calls| && i != j && calls[i].conn == calls[j].conn
    requires s0.sessions[calls[i].conn].undo.None? && !calls[i].faults.begin && calls[i].faults.rollback
    requires !Commits(calls[i].steps, calls[i].faults, s0.sessions[calls[i].conn])
    ensures exists es, s :: Leads(calls, s0, es, s) && Knows(calls, s) && s.phases[i].Finished? && s.phases[j].Stuck?
  {
    hide RunCall, Finish, Commits, Block, Answer, Returned, Micro, Fits, Leads, Settled, Cleaned;
    var es, s := TakeAndRun(calls, s0, i);
    WholeCall(calls[i].steps, calls[i].faults, s0.sessions[calls[i].conn]);
    LeavesOpen(calls[i].steps, calls[i].faults, s0.sessions[calls[i].conn]);
    var fs, t := NextGetsStuck(calls, s, i, j);
    Join(calls, s0, es, s, fs, t);
  }
}

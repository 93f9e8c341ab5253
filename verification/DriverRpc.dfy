/**
  Request correlation in the Go driver client (sidecar/driverclient/client.go): any number of concurrent
  `Send` calls, one reader goroutine, and the crash drain, in any order. A `Send` registers and writes
  under the mutex; the reader looks an id up under the mutex but delivers after releasing it; the drain
  holds the mutex throughout.
*/
module DriverRpc {
  import opened Common

  datatype Outcome = Reply(value: int) | ErrorReply(code: string) | DriverCrash

  datatype Return = WriteFailed | Got(outcome: Outcome)

  /** `Delivering` is the reader between its lookup and the channel send; `Ended` is after the drain. */
  datatype Reader = Scanning | Delivering(id: nat, outcome: Outcome) | Ended

  /** `slots` holds the contents of each one-slot channel. `put` lists everything ever put into it,
      `returned` what each `Send` has returned, and `late` the ids registered after the drain whose
      write nevertheless succeeded. */
  datatype Client = Client(
    requestID: nat,
    pending: set<nat>,
    slots: map<nat, seq<Outcome>>,
    reader: Reader,
    waited: bool,
    put: map<nat, seq<Outcome>>,
    returned: map<nat, Return>,
    late: set<nat>)

  datatype Event =
    | Send(written: bool)
    | Noise
    | Line(id: nat, outcome: Outcome)
    | Deliver
    | Drain
    | Receive(id: nat)
    | Stop

  const FRESH := Client(0, {}, map[], Scanning, false, map[], map[], {})

  predicate Empty(s: Client, id: nat) {
    id in s.slots && s.slots[id] == []
  }

  /** A channel send needs a free slot, a receive a full one. */
  predicate Enabled(s: Client, e: Event) {
    match e
    case Send(_) => true
    case Noise => s.reader.Scanning?
    case Line(_, outcome) => s.reader.Scanning? && !outcome.DriverCrash?
    case Deliver => s.reader.Delivering? && Empty(s, s.reader.id)
    case Drain => s.reader.Scanning? && forall id :: id in s.pending ==> Empty(s, id)
    case Receive(id) => id in s.slots && s.slots[id] != [] && id !in s.returned
    case Stop => true
  }

  /** outcome put into the channel of every id of ids. */
  function PutAll(slots: map<nat, seq<Outcome>>, ids: set<nat>, outcome: Outcome): (r: map<nat, seq<Outcome>>)
    ensures r.Keys == slots.Keys
  {
    map id | id in slots :: if id in ids then slots[id] + [outcome] else slots[id]
  }

  function Apply(s: Client, e: Event): Client
    requires Enabled(s, e)
  {
    match e
    case Send(written) =>
      var id := s.requestID + 1;
      var t := s.(requestID := id, slots := s.slots[id := []], put := s.put[id := []]);
      if !written then t.(returned := s.returned[id := WriteFailed])
      else t.(pending := s.pending + {id}, late := if s.reader.Ended? then s.late + {id} else s.late)
    case Noise => s
    case Line(id, outcome) =>
      if id !in s.pending then s else s.(pending := s.pending - {id}, reader := Delivering(id, outcome))
    case Deliver =>
      var Delivering(id, outcome) := s.reader;
      s.(slots := PutAll(s.slots, {id}, outcome), put := PutAll(s.put, {id}, outcome), reader := Scanning)
    case Drain =>
      s.(slots := PutAll(s.slots, s.pending, DriverCrash), put := PutAll(s.put, s.pending, DriverCrash),
         pending := {}, reader := Ended)
    case Receive(id) => s.(slots := s.slots[id := s.slots[id][1..]], returned := s.returned[id := Got(s.slots[id][0])])
    case Stop => s.(waited := true)
  }

  predicate Leads(s: Client, es: seq<Event>, t: Client)
    decreases |es|
  {
    if es == [] then s == t else Enabled(s, es[0]) && Leads(Apply(s, es[0]), es[1..], t)
  }

  // ---------------------------------------------------------------------
  // Every reachable state
  // ---------------------------------------------------------------------

  /** Where a registered id is in its life. */
  predicate Waiting(s: Client, id: nat) {
    Empty(s, id) && id in s.put && s.put[id] == [] && id !in s.returned
  }

  predicate Answered(s: Client, id: nat) {
    id in s.put && |s.put[id]| == 1 && id in s.slots &&
    if id in s.returned then s.slots[id] == [] && s.returned[id] == Got(s.put[id][0]) else s.slots[id] == s.put[id]
  }

  predicate Failed(s: Client, id: nat) {
    Empty(s, id) && id in s.put && s.put[id] == [] && id in s.returned && s.returned[id] == WriteFailed
  }

  predicate Held(s: Client, id: nat) {
    s.reader.Delivering? && s.reader.id == id
  }

  /** One id's view of the tables. */
  predicate Life(s: Client, id: nat) {
    && (id in s.slots <==> 1 <= id <= s.requestID)
    && (id in s.put <==> id in s.slots)
    && (id in s.pending || id in s.returned || Held(s, id) ==> id in s.slots)
    && (id in s.late <==> s.reader.Ended? && id in s.pending)
    && (id in s.pending ==> Waiting(s, id) && !Held(s, id))
    && (Held(s, id) ==> Waiting(s, id))
    && (id in s.slots && id !in s.pending && !Held(s, id) ==> Answered(s, id) || Failed(s, id))
  }

  ghost predicate Inv(s: Client) {
    forall id: nat :: Life(s, id)
  }

  lemma LifeAfterSend(s: Client, written: bool, id: nat)
    requires Life(s, id)
    ensures Life(Apply(s, Send(written)), id)
  {
  }

  lemma LifeAfterDeliver(s: Client, id: nat)
    requires Life(s, id) && Enabled(s, Deliver)
    ensures Life(Apply(s, Deliver), id)
  {
  }

  lemma LifeAfterDrain(s: Client, id: nat)
    requires Life(s, id) && Enabled(s, Drain)
    ensures Life(Apply(s, Drain), id)
  {
  }

  lemma LifeAfterReceive(s: Client, k: nat, id: nat)
    requires Life(s, id) && Enabled(s, Receive(k))
    ensures Life(Apply(s, Receive(k)), id)
  {
  }

  lemma LifeAfterLine(s: Client, k: nat, outcome: Outcome, id: nat)
    requires Life(s, id) && Enabled(s, Line(k, outcome))
    ensures Life(Apply(s, Line(k, outcome)), id)
  {
  }

  /** Whatever happens, an id stays in one of its states. */
  lemma LifeGoesOn(s: Client, e: Event, id: nat)
    requires Life(s, id) && Enabled(s, e)
    ensures Life(Apply(s, e), id)
  {
    match e
    case Send(written) => hide Life; LifeAfterSend(s, written, id);
    case Line(k, outcome) => hide Life; LifeAfterLine(s, k, outcome, id);
    case Deliver => hide Life; LifeAfterDeliver(s, id);
    case Drain => hide Life; LifeAfterDrain(s, id);
    case Receive(k) => hide Life; LifeAfterReceive(s, k, id);
    case Noise =>
    case Stop =>
  }

  lemma StepKeeps(s: Client, e: Event)
    requires Inv(s) && Enabled(s, e)
    ensures Inv(Apply(s, e))
  {
    hide Life, Enabled, Apply;
    forall id: nat ensures Life(Apply(s, e), id) {
      LifeGoesOn(s, e, id);
    }
  }

  lemma {:induction false} Reachable(s: Client, es: seq<Event>, t: Client)
    requires Inv(s) && Leads(s, es, t)
    ensures Inv(t)
    decreases |es|
  {
    hide Inv, Enabled, Apply;
    if es != [] {
      StepKeeps(s, es[0]);
      Reachable(Apply(s, es[0]), es[1..], t);
    }
  }

  lemma FreshInv()
    ensures Inv(FRESH)
  {
  }

  /** Each registered channel is sent to at most once, what its `Send` returns is what was put there, and
      the one slot is therefore always free for the reader and for the drain: neither ever blocks. */
  lemma AtMostOneResult(es: seq<Event>, s: Client, id: nat)
    requires Leads(FRESH, es, s)
    ensures id in s.put <==> 1 <= id <= s.requestID
    ensures id in s.put ==> |s.put[id]| <= 1
    ensures id in s.returned && s.returned[id].Got? ==> id in s.put && s.put[id] == [s.returned[id].outcome]
    ensures s.reader.Delivering? ==> Enabled(s, Deliver)
    ensures s.reader.Scanning? ==> Enabled(s, Drain)
  {
    FreshInv();
    Reachable(FRESH, es, s);
    assert Life(s, id);
    assert s.reader.Delivering? ==> Life(s, s.reader.id);
    forall k: nat ensures k in s.pending ==> Empty(s, k) {
      assert Life(s, k);
    }
  }

  /** A line for an id that is not pending, unknown or answered before, changes nothing. */
  lemma LateLinesIgnored(s: Client, id: nat, outcome: Outcome)
    requires Life(s, id) && Enabled(s, Line(id, outcome))
    requires id in s.put ==> s.put[id] != [] || id in s.returned
    ensures Apply(s, Line(id, outcome)) == s
  {
  }

  // ---------------------------------------------------------------------
  // Who returns
  // ---------------------------------------------------------------------

  /** The reader is gone and no `Send` has anything left to receive. */
  predicate Quiet(s: Client) {
    s.reader.Ended? && forall id :: id in s.slots ==> !Enabled(s, Receive(id))
  }

  lemma LateMeansEnded(s: Client, id: nat)
    requires Life(s, id)
    ensures id in s.late ==> s.reader.Ended?
  {
  }

  lemma LateStep(s: Client, e: Event, id: nat)
    requires Life(s, id) && Enabled(s, e) && id in s.slots
    ensures var t := Apply(s, e);
      && id in t.slots
      && (s.reader.Ended? ==> t.reader.Ended?)
      && (s.reader.Ended? ==> (id in t.late <==> id in s.late))
      && (!s.reader.Ended? ==> id !in t.late)
  {
  }

  lemma {:induction false} LateStays(s: Client, es: seq<Event>, t: Client, id: nat)
    requires Life(s, id) && Leads(s, es, t) && id in s.slots
    ensures id in t.slots && Life(t, id)
    ensures s.reader.Ended? ==> t.reader.Ended? && (id in t.late <==> id in s.late)
    ensures !s.reader.Ended? ==> id !in t.late
    decreases |es|
  {
    hide Life, Enabled, Apply;
    if es == [] {
      assert !s.reader.Ended? ==> id !in s.late by { LateMeansEnded(s, id); }
    } else {
      LifeGoesOn(s, es[0], id);
      LateStep(s, es[0], id);
      LateStays(Apply(s, es[0]), es[1..], t, id);
    }
  }

  lemma QuietVerdict(s: Client, id: nat)
    requires Life(s, id) && Quiet(s) && id in s.slots
    ensures id in s.returned <==> id !in s.late
  {
    assert !Enabled(s, Receive(id));
  }

  /** Once the reader is gone and everything deliverable is received, a `Send` has returned if and only if
      it did not both register after the drain and get its bytes written. */
  lemma ReturnsUnlessLate(es: seq<Event>, s: Client, id: nat)
    requires Leads(FRESH, es, s) && Quiet(s) && 1 <= id <= s.requestID
    ensures id in s.returned <==> id !in s.late
  {
    FreshInv();
    Reachable(FRESH, es, s);
    assert Life(s, id);
    QuietVerdict(s, id);
  }

  /** Every `Send` registered before the drain returns; one that is late never does. */
  lemma RegisteredBeforeDrainReturns(s: Client, es: seq<Event>, t: Client, id: nat)
    requires Inv(s) && Leads(s, es, t) && Quiet(t) && id in s.slots
    ensures !s.reader.Ended? ==> id in t.returned
    ensures id in s.late ==> id !in t.returned
  {
    hide Life, Enabled, Apply;
    assert Life(s, id);
    LateMeansEnded(s, id);
    LateStays(s, es, t, id);
    QuietVerdict(t, id);
  }

  /** What a `Send` that has left the pending table returns, or has returned, is already decided. */
  function Verdict(s: Client, id: nat): Return
    requires id in s.put
  {
    if Held(s, id) then Got(s.reader.outcome) else if s.put[id] == [] then WriteFailed else Got(s.put[id][0])
  }

  predicate Decided(s: Client, id: nat) {
    id in s.slots && id in s.put && id !in s.pending
  }

  lemma DecidedStep(s: Client, e: Event, id: nat)
    requires Life(s, id) && Enabled(s, e) && Decided(s, id)
    ensures Decided(Apply(s, e), id) && Verdict(Apply(s, e), id) == Verdict(s, id)
    ensures id in s.returned ==> id in Apply(s, e).returned
  {
  }

  lemma {:induction false} DecidedForGood(s: Client, es: seq<Event>, t: Client, id: nat)
    requires Life(s, id) && Leads(s, es, t) && Decided(s, id)
    ensures Decided(t, id) && Life(t, id) && Verdict(t, id) == Verdict(s, id)
    ensures id in s.returned ==> id in t.returned
    decreases |es|
  {
    hide Life, Enabled, Apply, Verdict, Decided;
    if es != [] {
      LifeGoesOn(s, es[0], id);
      DecidedStep(s, es[0], id);
      DecidedForGood(Apply(s, es[0]), es[1..], t, id);
    }
  }

  lemma ReturnsVerdict(s: Client, id: nat)
    requires Life(s, id) && id in s.returned
    ensures Decided(s, id) && s.returned[id] == Verdict(s, id)
  {
  }

  lemma FirstDecision(s: Client, e: Event, id: nat)
    requires Life(s, id) && Enabled(s, e) && !Decided(s, id)
    ensures var t := Apply(s, e);
      Decided(t, id) ==>
        || Verdict(t, id) in {WriteFailed, Got(DriverCrash)}
        || (e.Line? && e.id == id && Verdict(t, id) == Got(e.outcome))
  {
  }

  /** A reply reaches a `Send` only by a line that carried its id. */
  lemma {:induction false} OnlyByItsOwnLine(s: Client, es: seq<Event>, t: Client, id: nat)
    requires Life(s, id) && Leads(s, es, t) && !Decided(s, id)
    requires id in t.returned && t.returned[id].Got? && !t.returned[id].outcome.DriverCrash?
    ensures Line(id, t.returned[id].outcome) in es
    decreases |es|
  {
    hide Life, Enabled, Apply, Verdict, Decided;
    if es == [] {
      ReturnsVerdict(s, id);
    } else {
      var next := Apply(s, es[0]);
      LifeGoesOn(s, es[0], id);
      if Decided(next, id) {
        FirstDecision(s, es[0], id);
        DecidedForGood(next, es[1..], t, id);
        ReturnsVerdict(t, id);
      } else {
        OnlyByItsOwnLine(next, es[1..], t, id);
      }
    }
  }

  lemma {:induction false} EndedStays(s: Client, es: seq<Event>, t: Client)
    requires Leads(s, es, t)
    ensures t.reader.Ended? <==> s.reader.Ended? || Drain in es
    decreases |es|
  {
    if es != [] {
      EndedStays(Apply(s, es[0]), es[1..], t);
    }
  }

  /** The reader is gone exactly after the drain, which comes once and after which no line is read. */
  lemma EndedIffDrained(es: seq<Event>, t: Client)
    requires Leads(FRESH, es, t)
    ensures t.reader.Ended? <==> Drain in es
    ensures Drain in es ==> !Enabled(t, Drain) && !Enabled(t, Noise)
    ensures Drain in es ==> forall id, outcome :: !Enabled(t, Line(id, outcome))
  {
    EndedStays(FRESH, es, t);
  }

  /** A late request is no mere possibility: one registered after the drain, its bytes written, is left waiting
      although the reader is gone. */
  lemma LateIsReachable(es: seq<Event>)
    requires es == [Drain, Send(true)]
    ensures exists t :: Leads(FRESH, es, t) && Quiet(t) && t.late == {1} && 1 !in t.returned && IsRunning(t)
  {
    var s1 := Apply(FRESH, Drain);
    var t := Apply(s1, Send(true));
    assert Leads(t, es[2..], t);
    assert es[1..][1..] == es[2..] && Leads(s1, es[1..], t);
    assert Leads(FRESH, es, t);
    assert t.late == {1} && t.slots[1] == [];
    assert forall id :: id in t.slots ==> id == 1;
  }

  // ---------------------------------------------------------------------
  // Reusing a client
  // ---------------------------------------------------------------------

  /** `ProcessState` is set by `Wait`, and only `Stop` waits. */
  predicate IsRunning(s: Client) {
    !s.waited
  }

  lemma {:induction false} StoppedForGood(s: Client, es: seq<Event>, t: Client)
    requires s.waited && Leads(s, es, t)
    ensures t.waited
    decreases |es|
  {
    if es != [] {
      StoppedForGood(Apply(s, es[0]), es[1..], t);
    }
  }

  /** Only stopping ends "running": the death of the process goes unnoticed. */
  lemma {:induction false} DeathUnnoticed(s: Client, es: seq<Event>, t: Client)
    requires IsRunning(s) && Leads(s, es, t)
    ensures IsRunning(t) <==> Stop !in es
    decreases |es|
  {
    if es != [] {
      if es[0].Stop? {
        StoppedForGood(Apply(s, es[0]), es[1..], t);
      } else {
        DeathUnnoticed(Apply(s, es[0]), es[1..], t);
      }
    }
  }

  predicate Unserved(t: Client, id: nat) {
    (id in t.returned && t.returned[id] == WriteFailed) || (id in t.late && id !in t.returned)
  }

  lemma UnservedStep(s: Client, e: Event)
    requires Life(s, s.requestID + 1) && s.reader.Ended? && Enabled(s, e)
    ensures var t := Apply(s, e);
      && t.reader.Ended?
      && (t.requestID == s.requestID || (t.requestID == s.requestID + 1 && Unserved(t, t.requestID)))
  {
  }

  lemma UnservedStays(s: Client, es: seq<Event>, t: Client, id: nat)
    requires Life(s, id) && Leads(s, es, t) && s.reader.Ended? && Unserved(s, id)
    ensures Unserved(t, id)
  {
    hide Enabled, Apply;
    if id in s.returned {
      ReturnsVerdict(s, id);
      DecidedForGood(s, es, t, id);
      ReturnsVerdict(t, id);
    } else {
      LateStays(s, es, t, id);
    }
  }

  /** And once the reader is gone, no later request is ever served: each fails to be written or never returns. */
  lemma {:induction false} DeadClientServesNothing(s: Client, es: seq<Event>, t: Client, id: nat)
    requires Inv(s) && s.reader.Ended? && Leads(s, es, t) && s.requestID < id <= t.requestID
    ensures Unserved(t, id)
    decreases |es|
  {
    hide Life, Enabled, Apply, Unserved;
    if es != [] {
      var next := Apply(s, es[0]);
      assert Life(s, s.requestID + 1);
      StepKeeps(s, es[0]);
      UnservedStep(s, es[0]);
      if next.requestID == id {
        assert Life(next, id);
        UnservedStays(next, es[1..], t, id);
      } else {
        DeadClientServesNothing(next, es[1..], t, id);
      }
    }
  }

  // ---------------------------------------------------------------------
  // The client and the manager, changed in place
  // ---------------------------------------------------------------------

  class DriverClient {
    var requestID: nat
    var pending: set<nat>
    var slots: map<nat, seq<Outcome>>
    var reader: Reader
    var waited: bool
    ghost var put: map<nat, seq<Outcome>>
    ghost var returned: map<nat, Return>
    ghost var late: set<nat>

    ghost function Model(): Client
      reads this
    {
      Client(requestID, pending, slots, reader, waited, put, returned, late)
    }

    constructor ()
      ensures Model() == FRESH
    {
      requestID, pending, slots, reader, waited := 0, {}, map[], Scanning, false;
      put, returned, late := map[], map[], {};
    }

    /** The critical section of `Send`: register first, write, and take the entry back if that fails. */
    method BeginSend(written: bool) returns (id: nat)
      requires Life(Model(), requestID + 1)
      modifies this
      ensures Model() == Apply(old(Model()), Send(written)) && id == requestID
    {
      requestID := requestID + 1;
      id := requestID;
      slots := slots[id := []];
      put := put[id := []];
      pending := pending + {id};
      if !written {
        pending := pending - {id};
        returned := returned[id := WriteFailed];
        return;
      }
      late := if reader.Ended? then late + {id} else late;
    }

    method LookUp(id: nat, outcome: Outcome)
      requires Enabled(Model(), Line(id, outcome))
      modifies this
      ensures Model() == Apply(old(Model()), Line(id, outcome))
    {
      if id in pending {
        pending := pending - {id};
        reader := Delivering(id, outcome);
      }
    }

    method DeliverHeld()
      requires Enabled(Model(), Deliver)
      modifies this
      ensures Model() == Apply(old(Model()), Deliver)
    {
      slots, put := PutAll(slots, {reader.id}, reader.outcome), PutAll(put, {reader.id}, reader.outcome);
      reader := Scanning;
    }

    /** The drain: a loop that takes the pending entries one by one, in whatever order. */
    method DrainAll()
      requires Enabled(Model(), Drain)
      modifies this
      ensures Model() == Apply(old(Model()), Drain)
    {
      hide PutAll;
      ghost var before := Model();
      PutNone(slots, DriverCrash);
      PutNone(put, DriverCrash);
      assert before.pending - pending == {};
      while pending != {}
        invariant pending <= before.pending
        invariant Model() == before.(pending := pending,
          slots := PutAll(before.slots, before.pending - pending, DriverCrash),
          put := PutAll(before.put, before.pending - pending, DriverCrash))
        decreases pending
      {
        var id :| id in pending;
        PutOneMore(before.slots, before.pending - pending, id, DriverCrash);
        PutOneMore(before.put, before.pending - pending, id, DriverCrash);
        assert before.pending - (pending - {id}) == (before.pending - pending) + {id};
        slots := PutAll(slots, {id}, DriverCrash);
        put := PutAll(put, {id}, DriverCrash);
        pending := pending - {id};
      }
      assert before.pending - pending == before.pending;
      reader := Ended;
    }

    method ReceiveResult(id: nat) returns (outcome: Outcome)
      requires Enabled(Model(), Receive(id))
      modifies this
      ensures Model() == Apply(old(Model()), Receive(id)) && returned[id] == Got(outcome)
    {
      outcome := slots[id][0];
      slots := slots[id := slots[id][1..]];
      returned := returned[id := Got(outcome)];
    }

    method StopProcess()
      modifies this
      ensures Model() == Apply(old(Model()), Stop)
    {
      waited := true;
    }
  }

  lemma PutNone(slots: map<nat, seq<Outcome>>, outcome: Outcome)
    ensures PutAll(slots, {}, outcome) == slots
  {
  }

  lemma PutOneMore(slots: map<nat, seq<Outcome>>, ids: set<nat>, id: nat, outcome: Outcome)
    requires id !in ids
    ensures PutAll(PutAll(slots, ids, outcome), {id}, outcome) == PutAll(slots, ids + {id}, outcome)
  {
  }

  class Manager {
    var clients: map<string, DriverClient>

    constructor ()
      ensures clients == map[]
    {
      clients := map[];
    }

    /** One client per binary: the one there is while it counts as running, else a fresh one, unless the
        binary cannot be found or started. */
    method GetClient(binary: string, starts: bool) returns (client: Option<DriverClient>)
      modifies this
      ensures binary in old(clients) && IsRunning(old(clients)[binary].Model()) ==>
        client == Some(old(clients)[binary]) && clients == old(clients)
      ensures !(binary in old(clients) && IsRunning(old(clients)[binary].Model())) && starts ==>
        client.Some? && fresh(client.value) && client.value.Model() == FRESH
          && clients == old(clients)[binary := client.value]
      ensures !(binary in old(clients) && IsRunning(old(clients)[binary].Model())) && !starts ==>
        client == None && clients == old(clients)
    {
      if binary in clients {
        var existing := clients[binary];
        if !existing.waited {
          return Some(existing);
        }
      }
      if !starts {
        return None;
      }
      var made := new DriverClient();
      clients := clients[binary := made];
      return Some(made);
    }
  }
}

/**
  The schema cache (src/connection-manager.ts `getSchema`, `invalidateSchemaCache`) against the database
  it caches, first when one operation runs at a time, then when fetches and writes overlap. A schema is
  what a fetch returns, row counts left aside; only statements classified as write or DDL change it.
*/
module SchemaCache {
  import opened Common

  datatype Table = Table(name: string, columns: seq<string>)
  type Schema = seq<Table>

  // ---------------------------------------------------------------------
  // One operation at a time
  // ---------------------------------------------------------------------

  /** Whatever is cached is what the database would answer now. */
  predicate Coherent(cache: map<string, Schema>, db: map<string, Schema>) {
    forall name :: name in cache && name in db ==> cache[name] == db[name]
  }

  class ConnectionManager {
    var schemaCache: map<string, Schema>

    constructor ()
      ensures schemaCache == map[]
    {
      schemaCache := map[];
    }

    /** The test before the first request: a plain call, and a cached schema. */
    method TryCache(name: string, forceRefresh: bool, exactCounts: Option<bool>) returns (hit: Option<Schema>)
      ensures hit ==
        if !forceRefresh && exactCounts == None && name in schemaCache then Some(schemaCache[name]) else None
    {
      if !forceRefresh && exactCounts == None && name in schemaCache {
        return Some(schemaCache[name]);
      }
      return None;
    }

    method StoreFetched(name: string, schema: Schema)
      modifies this
      ensures schemaCache == old(schemaCache)[name := schema]
    {
      schemaCache := schemaCache[name := schema];
    }

    method InvalidateSchemaCache(name: string)
      modifies this
      ensures schemaCache == old(schemaCache) - {name}
    {
      schemaCache := schemaCache - {name};
    }

    /** Undisturbed, `getSchema` answers what a fresh fetch would, cached or not. */
    method GetSchema(name: string, forceRefresh: bool, exactCounts: Option<bool>,
            db: map<string, Schema>) returns (schema: Schema)
      requires name in db && Coherent(schemaCache, db)
      modifies this
      ensures schema == db[name] && Coherent(schemaCache, db)
      ensures schemaCache.Keys == old(schemaCache).Keys + {name}
    {
      var hit := TryCache(name, forceRefresh, exactCounts);
      if hit.Some? {
        return hit.value;
      }
      schema := db[name];
      StoreFetched(name, schema);
    }

    /** One statement, which leaves the database at after: invalidate first, run second. */
    method ExecuteSql(name: string, category: Category, db: map<string, Schema>, after: Schema)
      requires name in db && Coherent(schemaCache, db)
      requires category.Read? ==> after == db[name]
      modifies this
      ensures Coherent(schemaCache, db[name := after])
      ensures name in schemaCache <==> category.Read? && name in old(schemaCache)
    {
      if category.Ddl? || category.Write? {
        InvalidateSchemaCache(name);
      }
    }

    /** A multi-step tool: the steps that succeeded, by category, invalidate as they go; COMMIT or ROLLBACK
        and the drops then leave the database at after, which differs only if some step was not a read. */
    method ExecuteSteps(name: string, steps: seq<Category>, db: map<string, Schema>, after: Schema)
      requires name in db && Coherent(schemaCache, db)
      requires (forall i :: 0 <= i < |steps| ==> steps[i].Read?) ==> after == db[name]
      modifies this
      ensures Coherent(schemaCache, db[name := after])
      ensures name in schemaCache <==> name in old(schemaCache) && forall i :: 0 <= i < |steps| ==> steps[i].Read?
    {
      var i := 0;
      while i < |steps|
        invariant 0 <= i <= |steps|
        invariant schemaCache ==
          if forall j :: 0 <= j < i ==> steps[j].Read? then old(schemaCache) else old(schemaCache) - {name}
      {
        if steps[i].Ddl? || steps[i].Write? {
          InvalidateSchemaCache(name);
        }
        i := i + 1;
      }
    }
  }

  // ---------------------------------------------------------------------
  // Overlapping fetches, statements and multi-step calls on one connection
  // ---------------------------------------------------------------------

  /** A multi-step call between BEGIN and its last DROP. `owed` is the time between the effect of a write or
      DDL step and the invalidation that follows it; `wrote` says that something has changed the schema
      since BEGIN. */
  datatype Call = Call(owed: bool, wrote: bool)

  /** `db` is what a fetch would read now. `fetches` holds what each fetch in flight has read; `writes` the
      single statements between invalidation and effect; `call` the holder of the transaction lock. */
  datatype State = State(db: Schema, cache: Option<Schema>, fetches: map<nat, Schema>,
          writes: set<nat>, call: Option<Call>)

  /** A fetch reads in the database and stores when the answer arrives; a single statement invalidates
      before it takes effect, a step of a multi-step call afterwards. `Settle` is COMMIT, ROLLBACK or a
      DROP, after which nothing is invalidated. `Forget` is a disconnect. */
  datatype Event =
    | ReadSchema(fetch: nat)
    | StoreSchema(fetch: nat)
    | Invalidate(write: nat)
    | Effect(write: nat, schema: Schema)
    | BeginCall
    | StepEffect(schema: Schema)
    | LateInvalidate
    | Settle(schema: Schema)
    | EndCall
    | Forget

  predicate Owed(s: State) {
    s.call.Some? && s.call.value.owed
  }

  /** The commands of a call follow one another. COMMIT, ROLLBACK and DROP change the schema only of a call
      in which something was written. */
  predicate Enabled(s: State, e: Event) {
    match e
    case ReadSchema(k) => k !in s.fetches
    case StoreSchema(k) => k in s.fetches
    case Invalidate(w) => w !in s.writes
    case Effect(w, _) => w in s.writes
    case BeginCall => s.call.None?
    case StepEffect(_) => s.call.Some? && !Owed(s)
    case LateInvalidate => Owed(s)
    case Settle(schema) => s.call.Some? && !Owed(s) && (s.call.value.wrote || schema == s.db)
    case EndCall => s.call.Some? && !Owed(s)
    case Forget => true
  }

  function Apply(s: State, e: Event): State
    requires Enabled(s, e)
  {
    match e
    case ReadSchema(k) => s.(fetches := s.fetches[k := s.db])
    case StoreSchema(k) => s.(cache := Some(s.fetches[k]), fetches := s.fetches - {k})
    case Invalidate(w) => s.(cache := None, writes := s.writes + {w})
    case Effect(w, schema) =>
      s.(db := schema, writes := s.writes - {w},
         call := if s.call.Some? then Some(s.call.value.(wrote := true)) else None)
    case BeginCall => s.(call := Some(Call(false, false)))
    case StepEffect(schema) => s.(db := schema, call := Some(Call(true, true)))
    case LateInvalidate => s.(cache := None, call := Some(s.call.value.(owed := false)))
    case Settle(schema) => s.(db := schema)
    case EndCall => s.(call := None)
    case Forget => s.(cache := None)
  }

  predicate Leads(s: State, es: seq<Event>, t: State)
    decreases |es|
  {
    if es == [] then s == t else Enabled(s, es[0]) && Leads(Apply(s, es[0]), es[1..], t)
  }

  /** A cache hit now would not be what a fresh fetch returns. */
  predicate Stale(s: State) {
    s.cache.Some? && s.cache.value != s.db
  }

  /** Neither the cache nor anything about to be cached is out of date. */
  predicate Sound(s: State) {
    !Stale(s) && forall k :: k in s.fetches ==> s.fetches[k] == s.db
  }

  /** Events that may change the schema. */
  predicate Writes(e: Event) {
    e.Effect? || e.StepEffect? || e.Settle?
  }

  predicate NoEffect(es: seq<Event>) {
    forall i :: 0 <= i < |es| ==> !Writes(es[i])
  }

  lemma {:induction false} SoundWithoutEffects(s: State, es: seq<Event>, t: State)
    requires Sound(s) && Leads(s, es, t) && NoEffect(es)
    ensures Sound(t)
    decreases |es|
  {
    if es != [] {
      assert !Writes(es[0]);
      SoundWithoutEffects(Apply(s, es[0]), es[1..], t);
    }
  }

  /** Soundness is exactly safety until the next write: a state is sound if and only if no run without an
      effect ends in a stale cache. */
  lemma SoundMeansNeverStale(s: State)
    ensures Sound(s) <==> forall es, t :: Leads(s, es, t) && NoEffect(es) ==> !Stale(t)
  {
    if Sound(s) {
      forall es, t | Leads(s, es, t) && NoEffect(es) ensures !Stale(t) {
        SoundWithoutEffects(s, es, t);
      }
    } else if Stale(s) {
      var none: seq<Event> := [];
      assert Leads(s, none, s) && NoEffect(none);
    } else {
      var k :| k in s.fetches && s.fetches[k] != s.db;
      var t := Apply(s, StoreSchema(k));
      var es := [StoreSchema(k)];
      assert Leads(t, es[1..], t);
      assert Leads(s, es, t) && NoEffect(es) && Stale(t);
    }
  }

  /** Whatever changes the schema, a single statement, a step, COMMIT, ROLLBACK or DROP: it keeps a sound
      state sound if and only if at that moment nothing is cached and no fetch is between reading and storing. */
  lemma EffectKeepsSoundIff(s: State, e: Event)
    requires Sound(s) && Enabled(s, e) && Apply(s, e).db != s.db
    ensures Sound(Apply(s, e)) <==> s.cache == None && s.fetches == map[]
  {
    if Sound(Apply(s, e)) {
      assert forall k :: k !in s.fetches;
    }
  }

  /** Events that put something into the cache or empty it. */
  predicate TouchesCache(e: Event) {
    e.StoreSchema? || e.Invalidate? || e.LateInvalidate? || e.Forget?
  }

  lemma {:induction false} CacheStays(s: State, es: seq<Event>, t: State)
    requires Leads(s, es, t) && forall i :: 0 <= i < |es| ==> !TouchesCache(es[i])
    ensures t.cache == s.cache
    decreases |es|
  {
    if es != [] {
      assert !TouchesCache(es[0]);
      CacheStays(Apply(s, es[0]), es[1..], t);
    }
  }

  /** What is cached, stale or not, is served until another fetch is stored, something is written or the
      connection is closed; after a write or a close, nothing is served until a fetch is stored. */
  lemma {:induction false} CacheIsLast(s: State, es: seq<Event>, t: State, k: nat)
    requires Leads(s, es, t) && k < |es| && TouchesCache(es[k])
    requires forall i :: k < i < |es| ==> !TouchesCache(es[i])
    ensures t.cache.Some? <==> es[k].StoreSchema?
    decreases |es|
  {
    if k == 0 {
      CacheStays(Apply(s, es[0]), es[1..], t);
    } else {
      CacheIsLast(Apply(s, es[0]), es[1..], t, k - 1);
    }
  }

  // ---------------------------------------------------------------------
  // Keeping fetches apart
  // ---------------------------------------------------------------------

  /** A fetch starts inside a single write or a multi-step call, or one of these starts inside a fetch. */
  predicate Overlaps(s: State, e: Event) {
    match e
    case ReadSchema(_) => s.writes != {} || s.call.Some?
    case Invalidate(_) => s.fetches != map[]
    case BeginCall => s.fetches != map[]
    case _ => false
  }

  predicate Apart(s: State, es: seq<Event>, t: State)
    requires Leads(s, es, t)
    decreases |es|
  {
    es == [] || (!Overlaps(s, es[0]) && Apart(Apply(s, es[0]), es[1..], t))
  }

  predicate Quiet(s: State) {
    && (!Owed(s) ==> Sound(s))
    && (s.writes != {} || s.call.Some? ==> s.fetches == map[])
    && (s.writes != {} ==> s.cache == None)
    && (s.call.Some? && s.call.value.wrote && !s.call.value.owed ==> s.cache == None)
  }

  lemma QuietStep(s: State, e: Event)
    requires Quiet(s) && Enabled(s, e) && !Overlaps(s, e)
    ensures Quiet(Apply(s, e))
  {
  }

  /** In every run in which no fetch overlaps a single write or a multi-step call, a cache hit is a fresh
      fetch at every moment, except between a step's effect and the invalidation that follows it. */
  lemma {:induction false} ApartIsFresh(s: State, es: seq<Event>, t: State)
    requires Quiet(s) && Leads(s, es, t) && Apart(s, es, t)
    ensures Quiet(t) && (!Owed(t) ==> !Stale(t))
    decreases |es|
  {
    hide Quiet, Enabled, Apply, Overlaps;
    if es == [] {
      QuietIsFresh(t);
    } else {
      QuietStep(s, es[0]);
      ApartIsFresh(Apply(s, es[0]), es[1..], t);
    }
  }

  lemma QuietIsFresh(s: State)
    requires Quiet(s)
    ensures !Owed(s) ==> !Stale(s)
  {
  }

  /** No continuation that keeps fetches apart has an old schema cached outside that window. */
  ghost predicate Safe(s: State) {
    forall es, t :: Leads(s, es, t) && Apart(s, es, t) && !Owed(t) ==> !Stale(t)
  }

  lemma OneEvent(s: State, e: Event, es: seq<Event>, t: State)
    requires Enabled(s, e) && !Overlaps(s, e) && Leads(Apply(s, e), es, t) && Apart(Apply(s, e), es, t)
    ensures Leads(s, [e] + es, t) && Apart(s, [e] + es, t)
  {
    assert ([e] + es)[1..] == es;
  }

  /** Stale, and not for want of a late invalidation. */
  predicate Lost(s: State) {
    Stale(s) && !Owed(s)
  }

  lemma LostIsUnsafe(s: State)
    requires Lost(s)
    ensures !Safe(s)
  {
    var none: seq<Event> := [];
    assert Leads(s, none, s) && Apart(s, none, s);
  }

  lemma UnsafeBefore(s: State, e: Event)
    requires Enabled(s, e) && !Overlaps(s, e) && !Safe(Apply(s, e))
    ensures !Safe(s)
  {
    var es, t :| Leads(Apply(s, e), es, t) && Apart(Apply(s, e), es, t) && !Owed(t) && Stale(t);
    OneEvent(s, e, es, t);
  }

  /** A fetch in flight during a single write or a call can bring an old schema into the cache. */
  lemma FetchInsideIsUnsafe(s: State, k: nat)
    requires k in s.fetches && s.fetches[k] == s.db
    requires s.writes != {} || s.call.Some?
    ensures !Safe(s)
    decreases Owed(s)
  {
    var changed := s.db + [Table("", [])];
    if Owed(s) {
      FetchInsideIsUnsafe(Apply(s, LateInvalidate), k);
      UnsafeBefore(s, LateInvalidate);
    } else if s.call.Some? {
      var s1 := Apply(s, StepEffect(changed));
      var s2 := Apply(s1, LateInvalidate);
      LostIsUnsafe(Apply(s2, StoreSchema(k)));
      UnsafeBefore(s2, StoreSchema(k));
      UnsafeBefore(s1, LateInvalidate);
      UnsafeBefore(s, StepEffect(changed));
    } else {
      var w :| w in s.writes;
      var s1 := Apply(s, Effect(w, changed));
      LostIsUnsafe(Apply(s1, StoreSchema(k)));
      UnsafeBefore(s1, StoreSchema(k));
      UnsafeBefore(s, Effect(w, changed));
    }
  }

  /** Keeping fetches apart is exactly what is needed: from a quiet state, an event leads to a state from which
      every continuation that keeps them apart is fresh, if and only if it is no overlap itself. */
  lemma OverlapIsExact(s: State, e: Event)
    requires Quiet(s) && Enabled(s, e)
    ensures !Overlaps(s, e) <==> Safe(Apply(s, e))
  {
    var t := Apply(s, e);
    if Overlaps(s, e) {
      if e.ReadSchema? {
        FetchInsideIsUnsafe(t, e.fetch);
      } else {
        assert s.fetches.Keys != {};
        var k :| k in s.fetches.Keys;
        FetchInsideIsUnsafe(t, k);
      }
    } else {
      QuietStep(s, e);
      forall es, u | Leads(t, es, u) && Apart(t, es, u) && !Owed(u) ensures !Stale(u) {
        ApartIsFresh(t, es, u);
      }
    }
  }

  /** The window is real: with the schema cached and no fetch under way, a DDL step has taken effect and a
      plain call still gets the old schema from the cache. */
  lemma HitInsideCallIsStale(before: Schema, after: Schema, es: seq<Event>)
    requires before != after && es == [ReadSchema(0), StoreSchema(0), BeginCall, StepEffect(after)]
    ensures exists t :: var s := State(before, None, map[], {}, None);
      Leads(s, es, t) && Apart(s, es, t) && Stale(t) && t.cache == Some(before) && t.fetches == map[] && Owed(t)
  {
    var s0 := State(before, None, map[], {}, None);
    var s1 := Apply(s0, es[0]);
    var s2 := Apply(s1, es[1]);
    var s3 := Apply(s2, es[2]);
    var t := Apply(s3, es[3]);
    assert s2.fetches == map[];
    var none: seq<Event> := [];
    OneEvent(s3, es[3], none, t);
    OneEvent(s2, es[2], [es[3]], t);
    OneEvent(s1, es[1], [es[2]] + [es[3]], t);
    OneEvent(s0, es[0], [es[1]] + ([es[2]] + [es[3]]), t);
    assert es == [es[0]] + ([es[1]] + ([es[2]] + [es[3]]));
  }

  lemma Then(s: State, e: Event, es: seq<Event>, t: State)
    requires Enabled(s, e) && Leads(Apply(s, e), es, t)
    ensures Leads(s, [e] + es, t)
  {
    assert ([e] + es)[1..] == es;
  }

  /** Because the single write invalidates before it takes effect, one fetch in between leaves the old
      schema cached. */
  lemma FetchInsideWriteGoesStale(before: Schema, after: Schema, es: seq<Event>)
    requires before != after && es == [Invalidate(0), ReadSchema(0), StoreSchema(0), Effect(0, after)]
    ensures exists t ::
      Leads(State(before, None, map[], {}, None), es, t) && Lost(t) && t.cache == Some(before) && t.db == after
  {
    var s0 := State(before, None, map[], {}, None);
    var s1 := Apply(s0, es[0]);
    var s2 := Apply(s1, es[1]);
    var s3 := Apply(s2, es[2]);
    var t := Apply(s3, es[3]);
    var none: seq<Event> := [];
    Then(s3, es[3], none, t);
    Then(s2, es[2], [es[3]], t);
    Then(s1, es[1], [es[2]] + [es[3]], t);
    Then(s0, es[0], [es[1]] + ([es[2]] + [es[3]]), t);
    assert es == [es[0]] + ([es[1]] + ([es[2]] + [es[3]]));
  }

  lemma RolledBack(before: Schema, after: Schema, s: State) returns (es: seq<Event>, t: State)
    requires s == State(after, None, map[], {}, Some(Call(false, true)))
    ensures es == [ReadSchema(0), StoreSchema(0), Settle(before), EndCall]
    ensures Leads(s, es, t) && t == State(before, Some(after), map[], {}, None)
  {
    var s1 := Apply(s, ReadSchema(0));
    var s2 := Apply(s1, StoreSchema(0));
    var s3 := Apply(s2, Settle(before));
    t := Apply(s3, EndCall);
    assert s2.fetches == map[];
    Then(s3, EndCall, [], t);
    Then(s2, Settle(before), [EndCall], t);
    Then(s1, StoreSchema(0), [Settle(before)] + [EndCall], t);
    Then(s, ReadSchema(0), [StoreSchema(0)] + ([Settle(before)] + [EndCall]), t);
    es := [ReadSchema(0)] + ([StoreSchema(0)] + ([Settle(before)] + [EndCall]));
  }

  /** Likewise a fetch between a step's invalidation and ROLLBACK: it caches a schema that is rolled back. */
  lemma FetchBeforeRollbackGoesStale(before: Schema, after: Schema, es: seq<Event>)
    requires before != after
    requires es == [BeginCall, StepEffect(after), LateInvalidate,
      ReadSchema(0), StoreSchema(0), Settle(before), EndCall]
    ensures exists t ::
      Leads(State(before, None, map[], {}, None), es, t) && Lost(t) && t.cache == Some(after) && t.db == before
  {
    hide Leads;
    var s0 := State(before, None, map[], {}, None);
    var s1 := Apply(s0, BeginCall);
    var s2 := Apply(s1, StepEffect(after));
    var rest, t := RolledBack(before, after, Apply(s2, LateInvalidate));
    Then(s2, LateInvalidate, rest, t);
    Then(s1, StepEffect(after), [LateInvalidate] + rest, t);
    Then(s0, BeginCall, [StepEffect(after)] + ([LateInvalidate] + rest), t);
    assert es == [BeginCall] + ([StepEffect(after)] + ([LateInvalidate] + rest));
  }

  /** A single statement that takes effect inside a call's transaction goes with it: ROLLBACK takes the schema
      back, although no step of the call has written anything. Nothing is cached then, so nothing is stale. */
  lemma ForeignWriteRolledBack(before: Schema, after: Schema, es: seq<Event>)
    requires before != after && es == [BeginCall, Invalidate(0), Effect(0, after), Settle(before), EndCall]
    ensures exists t :: var s := State(before, Some(before), map[], {}, None);
      Leads(s, es, t) && Apart(s, es, t) && t == State(before, None, map[], {}, None)
  {
    hide Leads, Apart;
    var s0 := State(before, Some(before), map[], {}, None);
    var s1 := Apply(s0, BeginCall);
    var s2 := Apply(s1, Invalidate(0));
    var s3 := Apply(s2, Effect(0, after));
    var s4 := Apply(s3, Settle(before));
    var t := Apply(s4, EndCall);
    var none: seq<Event> := [];
    RunIsOver(t);
    OneEvent(s4, EndCall, none, t);
    OneEvent(s3, Settle(before), [EndCall] + none, t);
    OneEvent(s2, Effect(0, after), [Settle(before)] + ([EndCall] + none), t);
    OneEvent(s1, Invalidate(0), [Effect(0, after)] + ([Settle(before)] + ([EndCall] + none)), t);
    OneEvent(s0, BeginCall, [Invalidate(0)] + ([Effect(0, after)] + ([Settle(before)] + ([EndCall] + none))), t);
    assert es == [BeginCall] + ([Invalidate(0)] + ([Effect(0, after)] + ([Settle(before)] + ([EndCall] + none))));
    assert t.writes == {};
  }

  lemma RunIsOver(s: State)
    ensures Leads(s, [], s) && Apart(s, [], s)
  {
  }
}

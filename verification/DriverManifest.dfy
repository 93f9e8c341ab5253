/**
  Which driver serves a DSN scheme (sidecar/drivermanager/manager.go, `loadManifest` and `ResolveDriver`).
  The manifest is a Go map, whose iteration order is arbitrary; a run of the loop is one order.
*/
module DriverManifest {
  import opened Common

  datatype Entry = Entry(binary: string, schemes: seq<string>)

  predicate Claims(e: Entry, scheme: string) {
    scheme in e.schemes
  }

  /** The binary of the last entry that claims scheme. */
  function LastClaim(entries: seq<Entry>, scheme: string): Option<string> {
    if entries == [] then None
    else
      var e := entries[|entries| - 1];
      if Claims(e, scheme) then Some(e.binary) else LastClaim(entries[..|entries| - 1], scheme)
  }

  class Manager {
    var schemeMap: map<string, string>

    constructor ()
      ensures schemeMap == map[]
    {
      schemeMap := map[];
    }

    /** The nested loops: a later entry overwrites an earlier one's scheme. */
    method LoadManifest(entries: seq<Entry>)
      modifies this
      ensures forall scheme :: scheme in schemeMap <==> LastClaim(entries, scheme).Some?
      ensures forall scheme :: scheme in schemeMap ==> LastClaim(entries, scheme) == Some(schemeMap[scheme])
    {
      schemeMap := map[];
      assert entries[..0] == [];
      for i := 0 to |entries|
        invariant forall scheme :: scheme in schemeMap <==> LastClaim(entries[..i], scheme).Some?
        invariant forall scheme :: scheme in schemeMap ==> LastClaim(entries[..i], scheme) == Some(schemeMap[scheme])
      {
        var e := entries[i];
        ghost var before := schemeMap;
        for j := 0 to |e.schemes|
          invariant forall scheme :: scheme in schemeMap <==> scheme in e.schemes[..j] || scheme in before
          invariant forall scheme :: scheme in schemeMap ==>
            schemeMap[scheme] == if scheme in e.schemes[..j] then e.binary else before[scheme]
        {
          schemeMap := schemeMap[e.schemes[j] := e.binary];
          assert e.schemes[..j + 1] == e.schemes[..j] + [e.schemes[j]];
        }
        assert e.schemes[..|e.schemes|] == e.schemes;
        assert entries[..i + 1][..i] == entries[..i] && entries[..i + 1][i] == e;
      }
      assert entries[..|entries|] == entries;
    }

    method ResolveDriver(scheme: string) returns (binary: Option<string>)
      ensures binary == if scheme in schemeMap then Some(schemeMap[scheme]) else None
    {
      if scheme !in schemeMap {
        return None;
      }
      return Some(schemeMap[scheme]);
    }
  }

  /** Two entries of the manifest want the same scheme for different binaries. */
  predicate Contested(entries: seq<Entry>, scheme: string) {
    exists i, j :: 0 <= i < |entries| && 0 <= j < |entries| && Claims(entries[i], scheme) && Claims(entries[j], scheme)
      && entries[i].binary != entries[j].binary
  }

  lemma {:induction false} LastClaimIsAClaim(entries: seq<Entry>, scheme: string)
    ensures match LastClaim(entries, scheme)
            case None => forall i :: 0 <= i < |entries| ==> !Claims(entries[i], scheme)
            case Some(b) => exists i :: 0 <= i < |entries| && Claims(entries[i], scheme) && entries[i].binary == b
  {
    hide Claims;
    if entries != [] && !Claims(entries[|entries| - 1], scheme) {
      LastClaimIsAClaim(entries[..|entries| - 1], scheme);
    }
  }

  /** Entry i claims scheme for binary, and no later entry claims it. */
  predicate LastToClaim(entries: seq<Entry>, scheme: string, binary: string, i: nat) {
    && i < |entries| && scheme in entries[i].schemes && entries[i].binary == binary
    && forall j :: i < j < |entries| ==> scheme !in entries[j].schemes
  }

  /** Exactly the last claim counts. */
  lemma {:induction false} LastClaimIff(entries: seq<Entry>, scheme: string, binary: string)
    ensures LastClaim(entries, scheme) == Some(binary) <==> exists i: nat :: LastToClaim(entries, scheme, binary, i)
  {
    if entries != [] {
      var before, e := entries[..|entries| - 1], entries[|entries| - 1];
      LastClaimIff(before, scheme, binary);
      if scheme in e.schemes {
        assert LastToClaim(entries, scheme, e.binary, |entries| - 1);
      } else {
        forall i: nat ensures LastToClaim(entries, scheme, binary, i) <==> LastToClaim(before, scheme, binary, i) {
          assert forall j :: 0 <= j < |before| ==> before[j] == entries[j];
        }
      }
    }
  }

  /** A scheme resolves to the same binary, or to none, in every iteration order if and only if no two
      entries with different binaries claim it. */
  lemma OrderIrrelevantIff(entries: seq<Entry>, scheme: string)
    ensures !Contested(entries, scheme) <==>
      forall order: seq<Entry> :: multiset(order) == multiset(entries) ==>
        LastClaim(order, scheme) == LastClaim(entries, scheme)
  {
    hide Claims;
    if Contested(entries, scheme) {
      var i, j :| 0 <= i < |entries| && 0 <= j < |entries| && Claims(entries[i], scheme) && Claims(entries[j], scheme)
        && entries[i].binary != entries[j].binary;
      var first, second := MovedLast(entries, i), MovedLast(entries, j);
      MovedLastIsOrder(entries, i);
      MovedLastIsOrder(entries, j);
      assert LastClaim(first, scheme) != LastClaim(second, scheme);
    } else {
      forall order: seq<Entry> | multiset(order) == multiset(entries)
        ensures LastClaim(order, scheme) == LastClaim(entries, scheme) {
        SameClaims(entries, order, scheme);
      }
    }
  }

  function MovedLast(entries: seq<Entry>, i: nat): seq<Entry>
    requires i < |entries|
  {
    entries[..i] + entries[i + 1..] + [entries[i]]
  }

  lemma MovedLastIsOrder(entries: seq<Entry>, i: nat)
    requires i < |entries|
    ensures multiset(MovedLast(entries, i)) == multiset(entries)
  {
    assert entries == entries[..i] + [entries[i]] + entries[i + 1..];
  }

  lemma FindIn(order: seq<Entry>, entries: seq<Entry>, i: nat) returns (j: nat)
    requires multiset(order) == multiset(entries) && i < |order|
    ensures j < |entries| && entries[j] == order[i]
  {
    assert order[i] in multiset(order);
    j :| 0 <= j < |entries| && entries[j] == order[i];
  }

  lemma SameClaims(entries: seq<Entry>, order: seq<Entry>, scheme: string)
    requires multiset(order) == multiset(entries) && !Contested(entries, scheme)
    ensures LastClaim(order, scheme) == LastClaim(entries, scheme)
  {
    hide Claims, LastClaim;
    LastClaimIsAClaim(entries, scheme);
    LastClaimIsAClaim(order, scheme);
    match LastClaim(order, scheme)
    case Some(b) =>
      var i :| 0 <= i < |order| && Claims(order[i], scheme) && order[i].binary == b;
      var j := FindIn(order, entries, i);
    case None =>
      if LastClaim(entries, scheme).Some? {
        var i :| 0 <= i < |entries| && Claims(entries[i], scheme);
        var j := FindIn(entries, order, i);
      }
  }
}

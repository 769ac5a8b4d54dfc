/** `RegistryArchive`: the in-memory snapshot, one vector of (entity, value)
    pairs per component kind and one optional per context kind. */
module Snapshots {
  import opened Base
  import opened Registries

  datatype RegistryArchive<V> = RegistryArchive(components: seq<seq<(Entity, V)>>, contextVars: seq<Option<V>>)
  {
    /** The snapshot has the shape the declared type lists give it. */
    predicate Fits(schema: Schema<V>)
    {
      |components| == schema.ComponentCount() && |contextVars| == schema.contextCount
    }
  }

  /** The entities named in a vector of pairs. */
  function Keys<V>(pairs: seq<(Entity, V)>): set<Entity>
  {
    set i | 0 <= i < |pairs| :: pairs[i].0
  }

  /** No entity appears twice in a vector of pairs. */
  predicate Distinct<V>(pairs: seq<(Entity, V)>)
  {
    forall i, j | 0 <= i < j < |pairs| :: pairs[i].0 != pairs[j].0
  }

  /** The entities named in any vector of a snapshot. */
  function AllKeys<V>(comps: seq<seq<(Entity, V)>>): (r: set<Entity>)
  {
    if |comps| == 0 then {} else AllKeys(comps[..|comps| - 1]) + Keys(comps[|comps| - 1])
  }

  /** The value of the last pair naming `e`, if any: the one that wins when
      the pairs are replayed in order. */
  function LastValue<V>(pairs: seq<(Entity, V)>, e: Entity): (r: Option<V>)
    ensures r.Some? <==> e in Keys(pairs)
    ensures r.Some? ==> (e, r.value) in pairs
    ensures r.Some? ==> exists i :: 0 <= i < |pairs| && pairs[i] == (e, r.value) && forall j | i < j < |pairs| :: pairs[j].0 != e
  {
    if |pairs| == 0 then None
    else if pairs[|pairs| - 1].0 == e then Some(pairs[|pairs| - 1].1)
    else
      var r := LastValue(pairs[..|pairs| - 1], e);
      assert Keys(pairs) == Keys(pairs[..|pairs| - 1]) + {pairs[|pairs| - 1].0} by { KeysSnoc(pairs); }
      r
  }

  lemma KeysSnoc<V>(pairs: seq<(Entity, V)>)
    requires |pairs| > 0
    ensures Keys(pairs) == Keys(pairs[..|pairs| - 1]) + {pairs[|pairs| - 1].0}
  {
    assert pairs == pairs[..|pairs| - 1] + [pairs[|pairs| - 1]];
  }

  /** An entity is named somewhere in the snapshot exactly when some kind's
      vector names it. */
  lemma {:induction false} AllKeysIff<V>(comps: seq<seq<(Entity, V)>>, e: Entity)
    ensures e in AllKeys(comps) <==> exists j :: 0 <= j < |comps| && e in Keys(comps[j])
  {
    if |comps| > 0 {
      var n := |comps| - 1;
      AllKeysIff(comps[..n], e);
      if e in AllKeys(comps[..n]) {
        var j :| 0 <= j < n && e in Keys(comps[..n][j]);
        assert comps[..n][j] == comps[j];
      }
      if j :| 0 <= j < |comps| && e in Keys(comps[j]) {
        if j < n {
          assert comps[..n][j] == comps[j];
        }
      }
    }
  }

  /** When every pair naming `e` carries `v`, replaying them leaves `v`. */
  lemma {:induction false} LastValueOfUniform<V>(pairs: seq<(Entity, V)>, e: Entity, v: V)
    requires forall p | p in pairs && p.0 == e :: p.1 == v
    requires e in Keys(pairs)
    ensures LastValue(pairs, e) == Some(v)
  {
  }
}

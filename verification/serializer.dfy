/** `serialize_registry`: builds a snapshot from a registry that is only
    read, never changed, and writes it to the archive. */
module Serializer {
  import opened Base
  import opened Registries
  import opened Snapshots
  import opened Codec

  /** `order` is a visit of `registry.each`: every valid entity once, in
      whatever order the store keeps them. */
  predicate IsEnumeration(order: seq<Entity>, s: set<Entity>)
  {
    && (forall i, j | 0 <= i < j < |order| :: order[i] != order[j])
    && (forall e | e in order :: e in s)
    && (forall e | e in s :: e in order)
  }

  /** One order in which `registry.each` may visit a set of entities. */
  method Enumerate(s: set<Entity>) returns (order: seq<Entity>)
    ensures IsEnumeration(order, s)
  {
    order := [];
    var left := s;
    while left != {}
      invariant left <= s
      invariant forall e :: e in order <==> e in s && e !in left
      invariant forall i, j | 0 <= i < j < |order| :: order[i] != order[j]
      decreases left
    {
      var e :| e in left;
      order := order + [e];
      left := left - {e};
    }
  }

  /** What an entity holding kind `k` contributes: `Components{}` for an
      empty type, a copy of its stored component otherwise. */
  function Captured<V>(reg: Registry<V>, schema: Schema<V>, e: Entity, k: Kind): (v: V)
    requires k < schema.ComponentCount() && (e, k) in reg.pools
    ensures schema.emptyKinds[k] ==> v == schema.placeholder
    ensures !schema.emptyKinds[k] ==> v == reg.pools[(e, k)]
  {
    if schema.emptyKinds[k] then schema.placeholder else reg.pools[(e, k)]
  }

  /** The component vectors after `registry.each` has visited `order`:
      every pair names a visited holder of its kind with its captured value. */
  function CollectComponents<V>(reg: Registry<V>, schema: Schema<V>, order: seq<Entity>): (r: seq<seq<(Entity, V)>>)
    ensures |r| == schema.ComponentCount()
    ensures forall k, p | 0 <= k < |r| && p in r[k] ::
              p.0 in order && (p.0, k) in reg.pools && p.1 == Captured(reg, schema, p.0, k)
  {
    if |order| == 0 then seq(schema.ComponentCount(), k => [])
    else
      // the `registry.each` callback for the last entity visited: append its
      // pair to the vector of every declared kind it holds
      var prev, e := CollectComponents(reg, schema, order[..|order| - 1]), order[|order| - 1];
      seq(|prev|, k requires 0 <= k < |prev| =>
        if (e, k) in reg.pools then prev[k] + [(e, Captured(reg, schema, e, k))] else prev[k])
  }

  /** The context slots: present with the stored value exactly for the
      context kinds the registry holds. */
  function CaptureContext<V>(reg: Registry<V>, schema: Schema<V>): (r: seq<Option<V>>)
    ensures |r| == schema.contextCount
    ensures forall i | 0 <= i < |r| :: r[i].Some? <==> i in reg.ctx
    ensures forall i | 0 <= i < |r| && r[i].Some? :: r[i].value == reg.ctx[i]
  {
    seq(schema.contextCount, i => if i in reg.ctx then Some(reg.ctx[i]) else None)
  }

  /** The snapshot of `reg` taken while visiting entities in `order`. */
  function Capture<V>(reg: Registry<V>, schema: Schema<V>, order: seq<Entity>): (a: RegistryArchive<V>)
    ensures a.Fits(schema)
  {
    RegistryArchive(CollectComponents(reg, schema, order), CaptureContext(reg, schema))
  }

  /** `serialize_registry`: the snapshot written to the archive. */
  function SerializeRegistry<V(!new)>(reg: Registry<V>, schema: Schema<V>, order: seq<Entity>): (ts: seq<Token<V>>)
    ensures DecodeArchive(ts, schema.ComponentCount(), schema.contextCount) == Ok((Capture(reg, schema, order), []))
  {
    EncodeArchive(Capture(reg, schema, order))
  }

  /** Over any duplicate-free visit, a kind's vector holds each visited
      holder of that kind once, with the value it captures, and nothing else. */
  lemma {:induction false} CollectExact<V>(reg: Registry<V>, schema: Schema<V>, order: seq<Entity>, k: Kind)
    requires k < schema.ComponentCount()
    requires forall i, j | 0 <= i < j < |order| :: order[i] != order[j]
    ensures Distinct(CollectComponents(reg, schema, order)[k])
    ensures forall p | p in CollectComponents(reg, schema, order)[k] ::
              p.0 in order && (p.0, k) in reg.pools && p.1 == Captured(reg, schema, p.0, k)
    ensures forall e | e in order && (e, k) in reg.pools ::
              (e, Captured(reg, schema, e, k)) in CollectComponents(reg, schema, order)[k]
  {
    if |order| > 0 {
      var n := |order| - 1;
      var prefix, e := order[..n], order[n];
      assert order == prefix + [e];
      CollectExact(reg, schema, prefix, k);
      var s0 := CollectComponents(reg, schema, prefix)[k];
      var s := CollectComponents(reg, schema, order)[k];
      assert e !in prefix;
      if (e, k) in reg.pools {
        assert s == s0 + [(e, Captured(reg, schema, e, k))];
        forall i, j | 0 <= i < j < |s|
          ensures s[i].0 != s[j].0
        {
          if j == |s0| {
            assert s[i] == s0[i] && s0[i] in s0;
            var p := s0[i];
            assert p in CollectComponents(reg, schema, prefix)[k];
            assert p.0 in prefix;
            assert s[j].0 == e;
          } else {
            assert s[i] == s0[i] && s[j] == s0[j];
          }
        }
      } else {
        assert s == s0;
      }
    }
  }

  /** Capture completeness: over a visit of all valid entities, a declared
      kind's vector names exactly the entities holding that kind, each once,
      each paired with its current value (`Components{}` for an empty type). */
  lemma CaptureComplete<V>(reg: Registry<V>, schema: Schema<V>, order: seq<Entity>, k: Kind)
    requires reg.Consistent() && IsEnumeration(order, reg.valid)
    requires k < schema.ComponentCount()
    ensures Distinct(Capture(reg, schema, order).components[k])
    ensures forall e :: e in Keys(Capture(reg, schema, order).components[k]) <==> (e, k) in reg.pools
    ensures forall p | p in Capture(reg, schema, order).components[k] ::
              (p.0, k) in reg.pools && p.1 == (if schema.emptyKinds[k] then schema.placeholder else reg.pools[(p.0, k)])
    ensures forall e | (e, k) in reg.pools ::
              LastValue(Capture(reg, schema, order).components[k], e) == Some(Captured(reg, schema, e, k))
  {
    var s := Capture(reg, schema, order).components[k];
    CollectExact(reg, schema, order, k);
    forall e | (e, k) in reg.pools
      ensures e in Keys(s) && LastValue(s, e) == Some(Captured(reg, schema, e, k))
    {
      assert e in order;
      var p := (e, Captured(reg, schema, e, k));
      assert p in s;
      var i :| 0 <= i < |s| && s[i] == p;
      assert s[i].0 == e;
      LastValueOfUniform(s, e, Captured(reg, schema, e, k));
    }
    forall e | e in Keys(s)
      ensures (e, k) in reg.pools
    {
      var i :| 0 <= i < |s| && s[i].0 == e;
      assert s[i] in s;
    }
  }
}

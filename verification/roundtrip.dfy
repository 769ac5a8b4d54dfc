/** The round trip the two halves promise together: loading what
    `serialize_registry` wrote rebuilds the registry, as far as the declared
    type lists can see it. */
module RoundTrip {
  import opened Base
  import opened Registries
  import opened Snapshots
  import opened Codec
  import opened Serializer
  import opened Deserializer

  /** What of `reg` the declared type lists can see: the entities holding
      at least one declared component kind, those components (an empty
      type's as `Components{}`), and the declared context kinds. */
  function Project<V>(reg: Registry<V>, schema: Schema<V>): (r: Registry<V>)
    ensures r.Consistent()
  {
    Registry(
      set p | p in reg.pools && p.1 < schema.ComponentCount() :: p.0,
      map p | p in reg.pools && p.1 < schema.ComponentCount() :: Captured(reg, schema, p.0, p.1),
      map k | k in reg.ctx && k < schema.contextCount :: reg.ctx[k])
  }

  /** Rebuilding from a capture gives back the visible part of the store. */
  lemma CaptureRestore<V>(reg: Registry<V>, schema: Schema<V>, order: seq<Entity>)
    requires reg.Consistent() && IsEnumeration(order, reg.valid)
    ensures Rebuild(Capture(reg, schema, order)) == Project(reg, schema)
  {
    var a := Capture(reg, schema, order);
    ReplayComponentsEffect(a.components);
    InstallContextsEffect(ReplayComponents(Empty(), a.components), a.contextVars);
    RebuildValid(reg, schema, order);
    RebuildPools(reg, schema, order);
    assert Rebuild(a).ctx == Project(reg, schema).ctx;
  }

  /** The entities a capture names are the holders of a declared kind. */
  lemma RebuildValid<V>(reg: Registry<V>, schema: Schema<V>, order: seq<Entity>)
    requires reg.Consistent() && IsEnumeration(order, reg.valid)
    ensures AllKeys(Capture(reg, schema, order).components) == Project(reg, schema).valid
  {
    var comps := Capture(reg, schema, order).components;
    var want := Project(reg, schema).valid;
    forall e
      ensures e in AllKeys(comps) <==> e in want
    {
      AllKeysIff(comps, e);
      if e in want {
        var p :| p in reg.pools && p.1 < schema.ComponentCount() && p.0 == e;
        CaptureComplete(reg, schema, order, p.1);
        assert e in Keys(comps[p.1]);
      }
      if e in AllKeys(comps) {
        var j :| 0 <= j < |comps| && e in Keys(comps[j]);
        CaptureComplete(reg, schema, order, j);
        assert (e, j) in reg.pools;
      }
    }
  }

  /** Replaying a capture's vectors gives every holder of a declared kind
      its captured value, and nothing else. */
  lemma RebuildPools<V>(reg: Registry<V>, schema: Schema<V>, order: seq<Entity>)
    requires reg.Consistent() && IsEnumeration(order, reg.valid)
    ensures ReplayComponents(Empty(), Capture(reg, schema, order).components).pools == Project(reg, schema).pools
  {
    var got := ReplayComponents(Empty(), Capture(reg, schema, order).components).pools;
    var want := Project(reg, schema).pools;
    RebuiltPoolsSound(reg, schema, order);
    RebuiltPoolsComplete(reg, schema, order);
    MapsAgree(got, want);
  }

  /** Two maps with the same keys and the same value at each key are equal. */
  lemma MapsAgree<K, U>(m: map<K, U>, m': map<K, U>)
    requires forall x | x in m :: x in m' && m[x] == m'[x]
    requires forall x | x in m' :: x in m
    ensures m == m'
  {
    assert m.Keys == m'.Keys;
  }

  lemma RebuiltPoolsSound<V>(reg: Registry<V>, schema: Schema<V>, order: seq<Entity>)
    requires reg.Consistent() && IsEnumeration(order, reg.valid)
    ensures forall p | p in ReplayComponents(Empty(), Capture(reg, schema, order).components).pools ::
              p in Project(reg, schema).pools &&
              ReplayComponents(Empty(), Capture(reg, schema, order).components).pools[p] == Project(reg, schema).pools[p]
  {
    var comps := Capture(reg, schema, order).components;
    var got := ReplayComponents(Empty(), comps).pools;
    var want := Project(reg, schema).pools;
    ReplayComponentsEffect(comps);
    forall p | p in got
      ensures p in want && got[p] == want[p]
    {
      assert p.1 < |comps| && p.0 in Keys(comps[p.1]);
      CaptureComplete(reg, schema, order, p.1);
      assert p in reg.pools;
      assert got[p] == LastValue(comps[p.1], p.0).value;
    }
  }

  lemma RebuiltPoolsComplete<V>(reg: Registry<V>, schema: Schema<V>, order: seq<Entity>)
    requires reg.Consistent() && IsEnumeration(order, reg.valid)
    ensures forall p | p in Project(reg, schema).pools ::
              p in ReplayComponents(Empty(), Capture(reg, schema, order).components).pools
  {
    var comps := Capture(reg, schema, order).components;
    var got := ReplayComponents(Empty(), comps).pools;
    var want := Project(reg, schema).pools;
    ReplayComponentsEffect(comps);
    forall p | p in want
      ensures p in got
    {
      assert p in reg.pools && p.1 < |comps|;
      CaptureComplete(reg, schema, order, p.1);
      assert p.0 in Keys(comps[p.1]);
    }
  }

  /** Loading the archive `serialize_registry` wrote, into any registry,
      succeeds and leaves exactly the visible part of the captured store. */
  lemma SnapshotRoundTrip<V(!new)>(reg: Registry<V>, prior: Registry<V>, schema: Schema<V>, order: seq<Entity>)
    requires reg.Consistent() && IsEnumeration(order, reg.valid)
    ensures DeserializeRegistry(prior, schema, SerializeRegistry(reg, schema, order)) == Loaded(Project(reg, schema), None)
  {
    CaptureRestore(reg, schema, order);
  }

  /** `serialize_registry` with the store's own visit order: whatever the
      store holds afterwards, loading the result restores the capture. */
  method Serialize<V(!new)>(reg: Registry<V>, schema: Schema<V>) returns (ts: seq<Token<V>>)
    requires reg.Consistent()
    ensures forall prior: Registry<V> :: DeserializeRegistry(prior, schema, ts) == Loaded(Project(reg, schema), None)
  {
    var order := Enumerate(reg.valid);
    ts := SerializeRegistry(reg, schema, order);
    forall prior: Registry<V>
      ensures DeserializeRegistry(prior, schema, ts) == Loaded(Project(reg, schema), None)
    {
      SnapshotRoundTrip(reg, prior, schema, order);
    }
  }

  /** A store that only holds what the type lists can see is restored
      exactly. */
  lemma ProjectVisible<V>(reg: Registry<V>, schema: Schema<V>)
    requires reg.Consistent()
    requires forall p | p in reg.pools ::
               p.1 < schema.ComponentCount() && (schema.emptyKinds[p.1] ==> reg.pools[p] == schema.placeholder)
    requires forall e | e in reg.valid :: exists k :: (e, k) in reg.pools
    requires forall k | k in reg.ctx :: k < schema.contextCount
    ensures Project(reg, schema) == reg
  {
    var r := Project(reg, schema);
    forall e | e in reg.valid
      ensures e in r.valid
    {
      var k :| (e, k) in reg.pools;
    }
    assert r.valid == reg.valid;
    assert r.pools == reg.pools;
    assert r.ctx == reg.ctx;
  }

  /** Capturing the restored store again yields the same snapshot, up to
      the order of pairs inside each kind's vector. */
  lemma CaptureIdempotent<V>(reg: Registry<V>, schema: Schema<V>, order: seq<Entity>, order': seq<Entity>)
    requires reg.Consistent() && IsEnumeration(order, reg.valid)
    requires IsEnumeration(order', Rebuild(Capture(reg, schema, order)).valid)
    ensures Capture(Rebuild(Capture(reg, schema, order)), schema, order').contextVars == Capture(reg, schema, order).contextVars
    ensures forall k | 0 <= k < schema.ComponentCount() ::
              && Distinct(Capture(Rebuild(Capture(reg, schema, order)), schema, order').components[k])
              && forall p :: p in Capture(Rebuild(Capture(reg, schema, order)), schema, order').components[k]
                             <==> p in Capture(reg, schema, order).components[k]
  {
    CaptureRestore(reg, schema, order);
    forall k | 0 <= k < schema.ComponentCount()
      ensures Distinct(Capture(Project(reg, schema), schema, order').components[k])
      ensures forall p :: p in Capture(Project(reg, schema), schema, order').components[k]
                          <==> p in Capture(reg, schema, order).components[k]
    {
      RecaptureKind(reg, schema, order, order', k);
    }
    RecaptureContext(reg, schema, order, order');
  }

  /** One kind of the second capture: the same pairs as the first, once each. */
  lemma RecaptureKind<V>(reg: Registry<V>, schema: Schema<V>, order: seq<Entity>, order': seq<Entity>, k: Kind)
    requires reg.Consistent() && IsEnumeration(order, reg.valid)
    requires IsEnumeration(order', Project(reg, schema).valid)
    requires k < schema.ComponentCount()
    ensures Distinct(Capture(Project(reg, schema), schema, order').components[k])
    ensures forall p :: p in Capture(Project(reg, schema), schema, order').components[k]
                        <==> p in Capture(reg, schema, order).components[k]
  {
    CollectExact(reg, schema, order, k);
    CollectExact(Project(reg, schema), schema, order', k);
  }

  /** The context slots of the second capture equal the first's. */
  lemma RecaptureContext<V>(reg: Registry<V>, schema: Schema<V>, order: seq<Entity>, order': seq<Entity>)
    ensures Capture(Project(reg, schema), schema, order').contextVars == Capture(reg, schema, order).contextVars
  {
  }

  /** The two float triples of the demo program, with integer fields. */
  datatype Vec3 = Vec3(x: int, y: int, z: int)

  /** The demo's type lists: `position` and `velocity` as component kinds
      0 and 1, and again as context kinds 0 and 1; neither is empty. */
  function DemoSchema(): Schema<Vec3>
  {
    Schema([false, false], 2, Vec3(0, 0, 0))
  }

  /** The demo store when it is saved: `e1` holds `position{1, 2, 3}`, the
      context holds `velocity{0, 0}`. */
  function DemoSaved(e1: Entity): Registry<Vec3>
  {
    Registry({e1}, map[(e1, 0) := Vec3(1, 2, 3)], map[1 := Vec3(0, 0, 0)])
  }

  /** The demo store after `p.x += 99` and the context's `x = 99`. */
  function DemoMutated(e1: Entity): Registry<Vec3>
  {
    Registry({e1}, map[(e1, 0) := Vec3(100, 2, 3)], map[1 := Vec3(99, 0, 0)])
  }

  /** The demo: loading the saved archive into the mutated store brings the
      saved values back, `1` for the entity and `0` for the context. */
  lemma DemoScenario(e1: Entity)
    ensures var loaded := DeserializeRegistry(DemoMutated(e1), DemoSchema(), SerializeRegistry(DemoSaved(e1), DemoSchema(), [e1]));
            && loaded.failure.None?
            && loaded.registry == DemoSaved(e1)
            && loaded.registry.pools[(e1, 0)].x == 1
            && loaded.registry.ctx[1].x == 0
  {
    var saved := DemoSaved(e1);
    assert saved.Consistent();
    assert IsEnumeration([e1], saved.valid);
    SnapshotRoundTrip(saved, DemoMutated(e1), DemoSchema(), [e1]);
    assert (e1, 0) in saved.pools;
    ProjectVisible(saved, DemoSchema());
  }

  /** In the demo `velocity` is never attached to an entity: its vector is
      empty and, after the load, no entity holds it. */
  lemma DemoUnusedKind(e1: Entity)
    ensures Capture(DemoSaved(e1), DemoSchema(), [e1]).components[1] == []
    ensures forall e :: (e, 1) !in DeserializeRegistry(DemoMutated(e1), DemoSchema(), SerializeRegistry(DemoSaved(e1), DemoSchema(), [e1])).registry.pools
  {
    DemoScenario(e1);
    assert [e1][..0] == [];
  }
}

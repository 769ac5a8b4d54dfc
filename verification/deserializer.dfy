/** `deserialize_registry`: reads a snapshot, resets the registry and
    replays the snapshot into it. */
module Deserializer {
  import opened Base
  import opened Registries
  import opened Snapshots
  import opened Codec

  /** One iteration of the replay loop for kind `k`: create the entity with
      exactly its recorded id unless it is already valid, then attach or
      overwrite its kind-`k` component. */
  function ReplayPair<V>(reg: Registry<V>, k: Kind, e: Entity, v: V): (r: Registry<V>)
    ensures r.valid == reg.valid + {e}
    ensures r.pools == reg.pools[(e, k) := v]
    ensures r.ctx == reg.ctx
    ensures r.Consistent() <== reg.Consistent()
  {
    var created := if e in reg.valid then reg else Create(reg, e);
    EmplaceOrReplace(created, e, k, v)
  }

  /** The replay loop of one component kind, pair by pair in vector order.
      It makes exactly the named entities valid and touches no context. */
  function ReplayKind<V>(reg: Registry<V>, k: Kind, pairs: seq<(Entity, V)>): (r: Registry<V>)
    ensures r.valid == reg.valid + Keys(pairs)
    ensures r.ctx == reg.ctx
    ensures r.Consistent() <== reg.Consistent()
  {
    if |pairs| == 0 then reg
    else
      var last := pairs[|pairs| - 1];
      KeysSnoc(pairs);
      ReplayPair(ReplayKind(reg, k, pairs[..|pairs| - 1]), k, last.0, last.1)
  }

  /** The fold over the declared component types: kind 0 first. It makes
      exactly the entities the snapshot names valid and touches no context. */
  function ReplayComponents<V>(reg: Registry<V>, comps: seq<seq<(Entity, V)>>): (r: Registry<V>)
    ensures r.valid == reg.valid + AllKeys(comps)
    ensures r.ctx == reg.ctx
    ensures r.Consistent() <== reg.Consistent()
  {
    if |comps| == 0 then reg
    else
      var k := |comps| - 1;
      ReplayKind(ReplayComponents(reg, comps[..k]), k, comps[k])
  }

  /** `set_context_var`: an absent slot installs nothing. */
  function SetContextVar<V>(reg: Registry<V>, k: Kind, slot: Option<V>): (r: Registry<V>)
    ensures r.valid == reg.valid && r.pools == reg.pools
    ensures slot.None? ==> r == reg
    ensures slot.Some? && k !in reg.ctx ==> r.ctx == reg.ctx[k := slot.value]
    ensures slot.Some? && k in reg.ctx ==> r == reg
  {
    if slot.Some? then CtxEmplace(reg, k, slot.value) else reg
  }

  /** The fold over the declared context types: kind 0 first. Every
      present slot ends up installed, nothing else is added, and entities
      and components are untouched. */
  function InstallContexts<V>(reg: Registry<V>, slots: seq<Option<V>>): (r: Registry<V>)
    ensures r.valid == reg.valid && r.pools == reg.pools
    ensures forall i: Kind | i < |slots| && slots[i].Some? :: i in r.ctx
    ensures forall i | i in r.ctx :: i in reg.ctx || (i < |slots| && slots[i].Some?)
    ensures forall i | i in reg.ctx :: i in r.ctx && r.ctx[i] == reg.ctx[i]
  {
    if |slots| == 0 then reg
    else
      var k := |slots| - 1;
      SetContextVar(InstallContexts(reg, slots[..k]), k, slots[k])
  }

  /** The registry a decoded snapshot rebuilds, starting from
      `entt::registry()`. */
  function Rebuild<V>(a: RegistryArchive<V>): (r: Registry<V>)
    ensures r.Consistent()
    ensures r.valid == AllKeys(a.components)
    ensures forall p :: p in r.pools <==> p.1 < |a.components| && p.0 in Keys(a.components[p.1])
    ensures forall p | p in r.pools :: r.pools[p] == LastValue(a.components[p.1], p.0).value
    ensures r.ctx == PresentSlots(a.contextVars)
  {
    ReplayComponentsEffect(a.components);
    InstallContextsEffect(ReplayComponents(Empty(), a.components), a.contextVars);
    InstallContexts(ReplayComponents(Empty(), a.components), a.contextVars)
  }

  /** The registry after a load, and why the load failed if it did. */
  datatype Loaded<V> = Loaded(registry: Registry<V>, failure: Option<Error>)

  /** `deserialize_registry(registry, …)`: the snapshot is read in full
      first; only then is the registry replaced by the rebuilt one. A read
      that fails leaves the caller's registry as it was. */
  function DeserializeRegistry<V>(reg: Registry<V>, schema: Schema<V>, ts: seq<Token<V>>): (r: Loaded<V>)
    ensures r.failure.None? <==> DecodeArchive(ts, schema.ComponentCount(), schema.contextCount).Ok?
    ensures r.failure.Some? ==> r.registry == reg
  {
    match DecodeArchive(ts, schema.ComponentCount(), schema.contextCount)
    case Err(err) => Loaded(reg, Some(err))
    case Ok((a, _)) => Loaded(Rebuild(a), None)
  }

  /** The context slots that are present, by kind. */
  function PresentSlots<V>(slots: seq<Option<V>>): map<Kind, V>
  {
    map i: Kind | i < |slots| && slots[i].Some? :: slots[i].value
  }

  /** Replaying one kind's vector makes every entity it names valid and
      gives it, at that kind, the value of its last pair; everything else
      is left as it was. */
  lemma {:induction false} ReplayKindEffect<V>(reg: Registry<V>, k: Kind, pairs: seq<(Entity, V)>)
    ensures ReplayKind(reg, k, pairs).valid == reg.valid + Keys(pairs)
    ensures ReplayKind(reg, k, pairs).ctx == reg.ctx
    ensures forall p :: p in ReplayKind(reg, k, pairs).pools <==> p in reg.pools || (p.1 == k && p.0 in Keys(pairs))
    ensures forall p | p in ReplayKind(reg, k, pairs).pools ::
              ReplayKind(reg, k, pairs).pools[p] ==
                if p.1 == k && p.0 in Keys(pairs) then LastValue(pairs, p.0).value else reg.pools[p]
  {
    if |pairs| > 0 {
      var n := |pairs| - 1;
      ReplayKindEffect(reg, k, pairs[..n]);
      KeysSnoc(pairs);
    }
  }

  /** Replaying all kinds into an empty registry leaves exactly the
      entities and components the snapshot names, each holding the last
      value recorded for it. */
  lemma {:induction false} ReplayComponentsEffect<V>(comps: seq<seq<(Entity, V)>>)
    ensures ReplayComponents(Empty(), comps).Consistent()
    ensures ReplayComponents(Empty(), comps).valid == AllKeys(comps)
    ensures ReplayComponents(Empty(), comps).ctx == map[]
    ensures forall p :: p in ReplayComponents(Empty(), comps).pools <==> p.1 < |comps| && p.0 in Keys(comps[p.1])
    ensures forall p | p in ReplayComponents(Empty(), comps).pools ::
              ReplayComponents(Empty(), comps).pools[p] == LastValue(comps[p.1], p.0).value
  {
    if |comps| > 0 {
      var k := |comps| - 1;
      var prefix := comps[..k];
      ReplayComponentsEffect(prefix);
      ReplayKindEffect(ReplayComponents(Empty(), prefix), k, comps[k]);
      forall j | 0 <= j < k
        ensures prefix[j] == comps[j]
      {
      }
    }
  }

  /** Installing the slots into a registry without context variables
      installs exactly the present ones, each with its value. */
  lemma {:induction false} InstallContextsEffect<V>(reg: Registry<V>, slots: seq<Option<V>>)
    requires reg.ctx == map[]
    ensures InstallContexts(reg, slots).valid == reg.valid
    ensures InstallContexts(reg, slots).pools == reg.pools
    ensures InstallContexts(reg, slots).ctx == PresentSlots(slots)
  {
    if |slots| > 0 {
      var k := |slots| - 1;
      InstallContextsEffect(reg, slots[..k]);
      assert k !in PresentSlots(slots[..k]);
      if slots[k].Some? {
        assert PresentSlots(slots) == PresentSlots(slots[..k])[k := slots[k].value];
      } else {
        assert PresentSlots(slots) == PresentSlots(slots[..k]);
      }
    }
  }

  /** What a successful load leaves, whatever the registry held before:
      the entities the snapshot names, exactly the components it records
      (the last pair winning), and exactly its present context values. */
  lemma RestoreExact<V>(reg: Registry<V>, schema: Schema<V>, ts: seq<Token<V>>)
    requires DecodeArchive(ts, schema.ComponentCount(), schema.contextCount).Ok?
    ensures var a := DecodeArchive(ts, schema.ComponentCount(), schema.contextCount).value.0;
            var r := DeserializeRegistry(reg, schema, ts).registry;
            && r.Consistent()
            && r.valid == AllKeys(a.components)
            && (forall p :: p in r.pools <==> p.1 < |a.components| && p.0 in Keys(a.components[p.1]))
            && (forall p | p in r.pools :: r.pools[p] == LastValue(a.components[p.1], p.0).value)
            && r.ctx == PresentSlots(a.contextVars)
  {
    var a := DecodeArchive(ts, schema.ComponentCount(), schema.contextCount).value.0;
    ReplayComponentsEffect(a.components);
    InstallContextsEffect(ReplayComponents(Empty(), a.components), a.contextVars);
  }
}

/** The part of an EnTT registry the snapshot code touches: the set of valid
    entities, one component pool per component type, and the context, which
    holds at most one variable per context type. */
module Registries {
  import opened Base

  /** An `entt::entity` handle. Any version bits EnTT packs into the handle
      stay inside `bits`; nothing here splits them out. */
  datatype Entity = Entity(bits: u32)

  /** The position of a type in a declared component list or context list.
      Component kinds and context kinds are separate namespaces. */
  type Kind = nat

  /** A registry: `pools[(e, k)]` is entity `e`'s component of kind `k`,
      `ctx[k]` the context variable of kind `k`. */
  datatype Registry<V> = Registry(valid: set<Entity>, pools: map<(Entity, Kind), V>, ctx: map<Kind, V>)
  {
    /** Components are attached to valid entities only. */
    predicate Consistent()
    {
      forall p | p in pools :: p.0 in valid
    }
  }

  /** The declared type lists: one flag per component type telling whether
      it is an empty type (`std::is_empty_v`), the number of context types,
      and the value that stands for `Components{}` of an empty type. */
  datatype Schema<V> = Schema(emptyKinds: seq<bool>, contextCount: nat, placeholder: V)
  {
    function ComponentCount(): nat
    {
      |emptyKinds|
    }
  }

  /** `entt::registry()`: a freshly constructed registry. */
  function Empty<V>(): (r: Registry<V>)
    ensures r.Consistent()
    ensures forall e :: e !in r.valid
    ensures forall p :: p !in r.pools
    ensures forall k :: k !in r.ctx
  {
    Registry({}, map[], map[])
  }

  /** `registry.create(hint)` for a hint that is not in use: the entity is
      created with exactly that identifier. */
  function Create<V>(reg: Registry<V>, e: Entity): (r: Registry<V>)
    requires e !in reg.valid
    ensures r.Consistent() <== reg.Consistent()
    ensures r.valid == reg.valid + {e}
    ensures r.pools == reg.pools && r.ctx == reg.ctx
  {
    reg.(valid := reg.valid + {e})
  }

  /** `registry.emplace_or_replace<C>(e, v)` for the type `C` at kind `k`. */
  function EmplaceOrReplace<V>(reg: Registry<V>, e: Entity, k: Kind, v: V): (r: Registry<V>)
    requires e in reg.valid
    ensures r.Consistent() <== reg.Consistent()
    ensures (e, k) in r.pools && r.pools[(e, k)] == v
    ensures forall p | p != (e, k) :: (p in r.pools <==> p in reg.pools) && (p in r.pools ==> r.pools[p] == reg.pools[p])
    ensures r.valid == reg.valid && r.ctx == reg.ctx
  {
    reg.(pools := reg.pools[(e, k) := v])
  }

  /** `registry.ctx().emplace<T>(v)`: installs `v` as the variable of kind
      `k` unless one of that kind is already there. */
  function CtxEmplace<V>(reg: Registry<V>, k: Kind, v: V): (r: Registry<V>)
    ensures k !in reg.ctx ==> r.ctx == reg.ctx[k := v]
    ensures k in reg.ctx ==> r == reg
    ensures r.valid == reg.valid && r.pools == reg.pools
  {
    if k in reg.ctx then reg else reg.(ctx := reg.ctx[k := v])
  }
}

/** The archive layer: how a snapshot is written as a stream of tokens and
    read back. Only the two codecs the program defines itself are modelled
    in detail, the `std::optional` codec and the entity codec. Cereal's own
    framing is abstracted: a vector is a length prefix followed by its
    elements, a tuple is its fields one after another, and a component or
    context value is a single token. */
module Codec {
  import opened Base
  import opened Registries
  import opened Snapshots

  /** One primitive written to the archive. */
  datatype Token<V> = Flag(b: bool) | Word(w: u32) | Size(n: nat) | Val(v: V)

  /** A decoder's result: the value read and the tokens after it. */
  type Decoded<T, V> = Result<(T, seq<Token<V>>)>

  /** `load` reads back exactly what `save` wrote, whatever follows it. */
  ghost predicate RoundTrips<T(!new), V(!new)>(save: T -> seq<Token<V>>, load: seq<Token<V>> -> Decoded<T, V>)
  {
    forall x, rest :: load(save(x) + rest) == Ok((x, rest))
  }

  // ---------------------------------------------------------------------
  // Component and context values

  function SaveValue<V>(v: V): seq<Token<V>>
  {
    [Val(v)]
  }

  function LoadValue<V>(ts: seq<Token<V>>): Decoded<V, V>
  {
    if |ts| == 0 then Err(CorruptEncoding)
    else if ts[0].Val? then Ok((ts[0].v, ts[1..]))
    else Err(SchemaMismatch)
  }

  lemma ValueRoundTrip<V(!new)>()
    ensures RoundTrips(SaveValue<V>, LoadValue<V>)
  {
    forall x: V, rest: seq<Token<V>>
      ensures LoadValue(SaveValue(x) + rest) == Ok((x, rest))
    {
      assert (SaveValue(x) + rest)[1..] == rest;
    }
  }

  // ---------------------------------------------------------------------
  // Entity identifiers

  /** `static_cast<entt::id_type>(ent)`. */
  function IdOf(e: Entity): (id: u32)
    ensures EntityOf(id) == e
  {
    e.bits
  }

  /** `static_cast<entt::entity>(id)`. */
  function EntityOf(id: u32): Entity
  {
    Entity(id)
  }

  /** The entity `save`: the handle written as its underlying integer. */
  function SaveEntity<V>(e: Entity): (ts: seq<Token<V>>)
    ensures |ts| == 1 && ts[0].Word? && EntityOf(ts[0].w) == e
  {
    [Word(IdOf(e))]
  }

  /** The entity `load`: an integer read and cast back to a handle. */
  function LoadEntity<V>(ts: seq<Token<V>>): (r: Decoded<Entity, V>)
    ensures r.Ok? <==> |ts| > 0 && ts[0].Word?
    ensures r.Ok? ==> SaveEntity(r.value.0) + r.value.1 == ts
    ensures |ts| == 0 ==> r == Err(CorruptEncoding)
  {
    if |ts| == 0 then Err(CorruptEncoding)
    else if ts[0].Word? then Ok((EntityOf(ts[0].w), ts[1..]))
    else Err(SchemaMismatch)
  }

  /** Casting an integer to a handle and back is the identity on the bits. */
  lemma IdCastExact(id: u32)
    ensures IdOf(EntityOf(id)) == id
  {
  }

  /** The decoded handle has exactly the bit pattern of the encoded one. */
  lemma EntityRoundTrip<V(!new)>()
    ensures RoundTrips(SaveEntity<V>, LoadEntity<V>)
    ensures forall e: Entity, rest: seq<Token<V>> :: LoadEntity(SaveEntity(e) + rest).Ok? && IdOf(LoadEntity(SaveEntity(e) + rest).value.0) == IdOf(e)
  {
    forall e: Entity, rest: seq<Token<V>>
      ensures LoadEntity(SaveEntity(e) + rest) == Ok((e, rest))
    {
      assert (SaveEntity(e) + rest)[1..] == rest;
    }
  }

  // ---------------------------------------------------------------------
  // std::optional

  /** `cereal::save` for `std::optional`: the presence flag, then the
      payload only when present. */
  function SaveOptional<T, V>(o: Option<T>, save: T -> seq<Token<V>>): (ts: seq<Token<V>>)
    ensures |ts| > 0 && ts[0] == Flag(o.Some?)
    ensures o.None? ==> ts == [Flag(false)]
    ensures o.Some? ==> ts[1..] == save(o.value)
  {
    match o
    case None => [Flag(false)]
    case Some(x) => [Flag(true)] + save(x)
  }

  /** `cereal::load` for `std::optional`: a set flag emplaces the value read
      after it, a clear flag resets the optional to absent. */
  function LoadOptional<T, V>(ts: seq<Token<V>>, load: seq<Token<V>> -> Decoded<T, V>): (r: Decoded<Option<T>, V>)
    ensures |ts| > 0 && ts[0] == Flag(false) ==> r == Ok((None, ts[1..]))
  {
    if |ts| == 0 then Err(CorruptEncoding)
    else if !ts[0].Flag? then Err(SchemaMismatch)
    else if ts[0].b then
      match load(ts[1..])
      case Err(err) => Err(err)
      case Ok((x, rest)) => Ok((Some(x), rest))
    else Ok((None, ts[1..]))
  }

  /** The optional codec round-trips whenever its payload codec does. */
  lemma OptionalRoundTrip<T(!new), V(!new)>(save: T -> seq<Token<V>>, load: seq<Token<V>> -> Decoded<T, V>)
    requires RoundTrips(save, load)
    ensures RoundTrips((o: Option<T>) => SaveOptional(o, save), (ts: seq<Token<V>>) => LoadOptional(ts, load))
  {
    forall o: Option<T>, rest: seq<Token<V>>
      ensures LoadOptional(SaveOptional(o, save) + rest, load) == Ok((o, rest))
    {
      var ts := SaveOptional(o, save) + rest;
      if o.Some? {
        assert ts[1..] == save(o.value) + rest;
      } else {
        assert ts[1..] == rest;
      }
    }
  }

  /** Optionals nest: an optional of an optional value round-trips too. */
  lemma NestedOptionalRoundTrip<V(!new)>()
    ensures RoundTrips(
              (o: Option<Option<V>>) => SaveOptional(o, (p: Option<V>) => SaveOptional(p, SaveValue<V>)),
              (ts: seq<Token<V>>) => LoadOptional(ts, (us: seq<Token<V>>) => LoadOptional(us, LoadValue<V>)))
  {
    ValueRoundTrip<V>();
    OptionalRoundTrip(SaveValue<V>, LoadValue<V>);
    OptionalRoundTrip((p: Option<V>) => SaveOptional(p, SaveValue<V>), (us: seq<Token<V>>) => LoadOptional(us, LoadValue<V>));
  }

  // ---------------------------------------------------------------------
  // Sequences of items, with and without a length prefix

  /** The items of a sequence written one after another. */
  function SaveSeq<T, V>(xs: seq<T>, save: T -> seq<Token<V>>): seq<Token<V>>
  {
    if |xs| == 0 then [] else save(xs[0]) + SaveSeq(xs[1..], save)
  }

  /** Reads `n` items one after another. */
  function LoadSeq<T, V>(ts: seq<Token<V>>, n: nat, load: seq<Token<V>> -> Decoded<T, V>): (r: Decoded<seq<T>, V>)
    ensures r.Ok? ==> |r.value.0| == n
    decreases n
  {
    if n == 0 then Ok(([], ts))
    else
      match load(ts)
      case Err(err) => Err(err)
      case Ok((x, rest)) =>
        match LoadSeq(rest, n - 1, load)
        case Err(err) => Err(err)
        case Ok((xs, rest')) => Ok(([x] + xs, rest'))
  }

  lemma {:induction false} SeqRoundTrip<T(!new), V(!new)>(xs: seq<T>, rest: seq<Token<V>>, save: T -> seq<Token<V>>, load: seq<Token<V>> -> Decoded<T, V>)
    requires RoundTrips(save, load)
    ensures LoadSeq(SaveSeq(xs, save) + rest, |xs|, load) == Ok((xs, rest))
  {
    if |xs| > 0 {
      var tail := SaveSeq(xs[1..], save) + rest;
      assert SaveSeq(xs, save) + rest == save(xs[0]) + tail;
      assert load(save(xs[0]) + tail) == Ok((xs[0], tail));
      SeqRoundTrip(xs[1..], rest, save, load);
      assert LoadSeq(tail, |xs| - 1, load) == Ok((xs[1..], rest));
      assert [xs[0]] + xs[1..] == xs;
    } else {
      assert SaveSeq(xs, save) + rest == rest;
    }
  }

  /** One (entity, value) element of a component vector. */
  function SavePair<V>(p: (Entity, V)): seq<Token<V>>
  {
    SaveEntity(p.0) + SaveValue(p.1)
  }

  function LoadPair<V>(ts: seq<Token<V>>): Decoded<(Entity, V), V>
  {
    match LoadEntity(ts)
    case Err(err) => Err(err)
    case Ok((e, rest)) =>
      match LoadValue(rest)
      case Err(err) => Err(err)
      case Ok((v, rest')) => Ok(((e, v), rest'))
  }

  lemma PairRoundTrip<V(!new)>()
    ensures RoundTrips(SavePair<V>, LoadPair<V>)
  {
    EntityRoundTrip<V>();
    ValueRoundTrip<V>();
    forall p: (Entity, V), rest: seq<Token<V>>
      ensures LoadPair(SavePair(p) + rest) == Ok((p, rest))
    {
      assert SavePair(p) + rest == SaveEntity(p.0) + (SaveValue(p.1) + rest);
    }
  }

  /** A component vector: its length, then its pairs. */
  function SaveVector<V>(pairs: seq<(Entity, V)>): seq<Token<V>>
  {
    [Size(|pairs|)] + SaveSeq(pairs, SavePair)
  }

  function LoadVector<V>(ts: seq<Token<V>>): Decoded<seq<(Entity, V)>, V>
  {
    if |ts| == 0 then Err(CorruptEncoding)
    else if !ts[0].Size? then Err(SchemaMismatch)
    else LoadSeq(ts[1..], ts[0].n, LoadPair)
  }

  lemma VectorRoundTrip<V(!new)>()
    ensures RoundTrips(SaveVector<V>, LoadVector<V>)
  {
    PairRoundTrip<V>();
    forall pairs: seq<(Entity, V)>, rest: seq<Token<V>>
      ensures LoadVector(SaveVector(pairs) + rest) == Ok((pairs, rest))
    {
      assert (SaveVector(pairs) + rest)[1..] == SaveSeq(pairs, SavePair) + rest;
      SeqRoundTrip(pairs, rest, SavePair, LoadPair);
    }
  }

  /** A context slot: an optional component value. */
  function SaveSlot<V>(o: Option<V>): seq<Token<V>>
  {
    SaveOptional(o, SaveValue)
  }

  function LoadSlot<V>(ts: seq<Token<V>>): Decoded<Option<V>, V>
  {
    LoadOptional(ts, LoadValue)
  }

  lemma SlotRoundTrip<V(!new)>()
    ensures RoundTrips(SaveSlot<V>, LoadSlot<V>)
  {
    ValueRoundTrip<V>();
    OptionalRoundTrip(SaveValue<V>, LoadValue<V>);
    forall o: Option<V>, rest: seq<Token<V>>
      ensures LoadSlot(SaveSlot(o) + rest) == Ok((o, rest))
    {
      assert LoadOptional(SaveOptional(o, SaveValue) + rest, LoadValue) == Ok((o, rest));
    }
  }

  // ---------------------------------------------------------------------
  // The whole snapshot: `archive(snapshot.components, snapshot.context_vars)`

  /** The tuple of component vectors, then the tuple of context slots. No
      type tag is written: the declared order is the only schema. */
  function EncodeArchive<V(!new)>(a: RegistryArchive<V>): (ts: seq<Token<V>>)
    ensures DecodeArchive(ts, |a.components|, |a.contextVars|) == Ok((a, []))
  {
    var ts := SaveSeq(a.components, SaveVector) + SaveSeq(a.contextVars, SaveSlot);
    ArchiveRoundTrip(a, []);
    assert ts + [] == ts;
    ts
  }

  /** Reads a snapshot with `n` component kinds and `m` context kinds. */
  function DecodeArchive<V>(ts: seq<Token<V>>, n: nat, m: nat): (r: Decoded<RegistryArchive<V>, V>)
    ensures r.Ok? ==> |r.value.0.components| == n && |r.value.0.contextVars| == m
  {
    match LoadSeq(ts, n, LoadVector)
    case Err(err) => Err(err)
    case Ok((comps, rest)) =>
      match LoadSeq(rest, m, LoadSlot)
      case Err(err) => Err(err)
      case Ok((ctxs, rest')) => Ok((RegistryArchive(comps, ctxs), rest'))
  }

  /** Decoding what was encoded, with the same type lists, gives back the
      snapshot and leaves whatever followed it. */
  lemma ArchiveRoundTrip<V(!new)>(a: RegistryArchive<V>, rest: seq<Token<V>>)
    ensures DecodeArchive(SaveSeq(a.components, SaveVector) + SaveSeq(a.contextVars, SaveSlot) + rest, |a.components|, |a.contextVars|) == Ok((a, rest))
  {
    var tail := SaveSeq(a.contextVars, SaveSlot) + rest;
    assert SaveSeq(a.components, SaveVector) + SaveSeq(a.contextVars, SaveSlot) + rest == SaveSeq(a.components, SaveVector) + tail;
    ComponentsRead(a.components, tail);
    SlotsRead(a.contextVars, rest);
  }

  lemma ComponentsRead<V(!new)>(comps: seq<seq<(Entity, V)>>, rest: seq<Token<V>>)
    ensures LoadSeq(SaveSeq(comps, SaveVector) + rest, |comps|, LoadVector) == Ok((comps, rest))
  {
    VectorRoundTrip<V>();
    SeqRoundTrip(comps, rest, SaveVector, LoadVector);
  }

  lemma SlotsRead<V(!new)>(slots: seq<Option<V>>, rest: seq<Token<V>>)
    ensures LoadSeq(SaveSeq(slots, SaveSlot) + rest, |slots|, LoadSlot) == Ok((slots, rest))
  {
    SlotRoundTrip<V>();
    SeqRoundTrip(slots, rest, SaveSlot, LoadSlot);
  }

  // ---------------------------------------------------------------------
  // Truncated streams

  /** Every strict prefix of what `save` writes is a stream that ends too
      early for `load`. */
  ghost predicate TruncationFails<T(!new), V(!new)>(save: T -> seq<Token<V>>, load: seq<Token<V>> -> Decoded<T, V>)
  {
    forall x, i | 0 <= i < |save(x)| :: load(save(x)[..i]) == Err(CorruptEncoding)
  }

  lemma ValueTruncation<V(!new)>()
    ensures TruncationFails(SaveValue<V>, LoadValue<V>)
  {
  }

  lemma EntityTruncation<V(!new)>()
    ensures TruncationFails(SaveEntity<V>, LoadEntity<V>)
  {
  }

  /** A truncated optional is detected whenever a truncated payload is. */
  lemma OptionalTruncation<T(!new), V(!new)>(save: T -> seq<Token<V>>, load: seq<Token<V>> -> Decoded<T, V>)
    requires TruncationFails(save, load)
    ensures TruncationFails((o: Option<T>) => SaveOptional(o, save), (ts: seq<Token<V>>) => LoadOptional(ts, load))
  {
    forall o: Option<T>, i | 0 <= i < |SaveOptional(o, save)|
      ensures LoadOptional(SaveOptional(o, save)[..i], load) == Err(CorruptEncoding)
    {
      if i > 0 {
        assert SaveOptional(o, save)[..i][1..] == save(o.value)[..i - 1];
      }
    }
  }

  /** A strict prefix of a sequence of items fails as truncated: the items
      before the cut read back, and the item that is cut does not. */
  lemma {:induction false} SeqTruncation<T(!new), V(!new)>(xs: seq<T>, i: nat, save: T -> seq<Token<V>>, load: seq<Token<V>> -> Decoded<T, V>)
    requires RoundTrips(save, load) && TruncationFails(save, load)
    requires i < |SaveSeq(xs, save)|
    ensures LoadSeq(SaveSeq(xs, save)[..i], |xs|, load) == Err(CorruptEncoding)
  {
    var head, tail := save(xs[0]), SaveSeq(xs[1..], save);
    assert SaveSeq(xs, save) == head + tail;
    if i < |head| {
      assert SaveSeq(xs, save)[..i] == head[..i];
    } else {
      var cut := tail[..i - |head|];
      assert SaveSeq(xs, save)[..i] == head + cut;
      assert load(head + cut) == Ok((xs[0], cut));
      SeqTruncation(xs[1..], i - |head|, save, load);
    }
  }

  lemma PairTruncation<V(!new)>()
    ensures TruncationFails(SavePair<V>, LoadPair<V>)
  {
    forall p: (Entity, V), i | 0 <= i < |SavePair(p)|
      ensures LoadPair(SavePair(p)[..i]) == Err(CorruptEncoding)
    {
      if i == 1 {
        assert SavePair(p)[..i] == SaveEntity(p.0) + [];
      }
    }
  }

  lemma VectorTruncation<V(!new)>()
    ensures TruncationFails(SaveVector<V>, LoadVector<V>)
  {
    PairRoundTrip<V>();
    PairTruncation<V>();
    forall pairs: seq<(Entity, V)>, i | 0 <= i < |SaveVector(pairs)|
      ensures LoadVector(SaveVector(pairs)[..i]) == Err(CorruptEncoding)
    {
      if i > 0 {
        assert SaveVector(pairs)[..i][1..] == SaveSeq(pairs, SavePair)[..i - 1];
        SeqTruncation(pairs, i - 1, SavePair, LoadPair);
      }
    }
  }

  lemma SlotTruncation<V(!new)>()
    ensures TruncationFails(SaveSlot<V>, LoadSlot<V>)
  {
    ValueTruncation<V>();
    OptionalTruncation(SaveValue<V>, LoadValue<V>);
    forall o: Option<V>, i | 0 <= i < |SaveSlot(o)|
      ensures LoadSlot(SaveSlot(o)[..i]) == Err(CorruptEncoding)
    {
      assert LoadOptional(SaveOptional(o, SaveValue)[..i], LoadValue) == Err(CorruptEncoding);
    }
  }

  /** Every strict prefix of a written snapshot is reported as a truncated
      stream when read with the same type lists. */
  lemma ArchiveTruncated<V(!new)>(a: RegistryArchive<V>, i: nat)
    requires i < |EncodeArchive(a)|
    ensures DecodeArchive(EncodeArchive(a)[..i], |a.components|, |a.contextVars|) == Err(CorruptEncoding)
  {
    var comps, slots := SaveSeq(a.components, SaveVector), SaveSeq(a.contextVars, SaveSlot);
    assert EncodeArchive(a) == comps + slots;
    if i < |comps| {
      assert EncodeArchive(a)[..i] == comps[..i];
      ComponentsCut(a, i);
    } else {
      assert EncodeArchive(a)[..i] == comps + slots[..i - |comps|];
      SlotsCut(a, i - |comps|);
    }
  }

  /** A cut inside the component vectors. */
  lemma ComponentsCut<V(!new)>(a: RegistryArchive<V>, i: nat)
    requires i < |SaveSeq(a.components, SaveVector)|
    ensures DecodeArchive(SaveSeq(a.components, SaveVector)[..i], |a.components|, |a.contextVars|) == Err(CorruptEncoding)
  {
    VectorRoundTrip<V>();
    VectorTruncation<V>();
    SeqTruncation(a.components, i, SaveVector, LoadVector);
  }

  /** A cut inside the context slots, after complete component vectors. */
  lemma SlotsCut<V(!new)>(a: RegistryArchive<V>, j: nat)
    requires j < |SaveSeq(a.contextVars, SaveSlot)|
    ensures DecodeArchive(SaveSeq(a.components, SaveVector) + SaveSeq(a.contextVars, SaveSlot)[..j], |a.components|, |a.contextVars|)
            == Err(CorruptEncoding)
  {
    var cut := SaveSeq(a.contextVars, SaveSlot)[..j];
    ComponentsRead(a.components, cut);
    SlotRoundTrip<V>();
    SlotTruncation<V>();
    SeqTruncation(a.contextVars, j, SaveSlot, LoadSlot);
  }
}

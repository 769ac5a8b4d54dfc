# Registry snapshot and restore, modelled in Dafny

This project models the snapshot/restore pair of a small C++ program that
saves and loads an EnTT entity-component registry through cereal.

- `serialize_registry` walks every valid entity of a registry it only reads.
  For each declared component type it collects the (entity, component) pairs
  of the entities holding that type. For each declared context type it
  records an optional that is present exactly when the registry holds that
  context variable. It then writes this `RegistryArchive` to the archive.
- `deserialize_registry` first reads a whole `RegistryArchive` back. It then
  resets the registry to `entt::registry()` and replays the pairs of each
  component type in declared order. A replayed entity is created with its
  recorded id if it is not yet valid, and its component is emplaced or
  replaced. Finally every present context slot is installed.
- Two codecs sit underneath. The `std::optional` codec writes a presence
  flag and, only when present, the payload. The entity codec writes a handle
  as its underlying `entt::id_type` and casts it back.

The C++ variadic type lists become kind indices. A `Schema` declares
component kinds `0..N-1` (one flag each saying whether the type is empty)
and context kinds `0..M-1`. The two are separate namespaces, as in the demo,
where `position` and `velocity` are both component and context types.

Modules:

- `Base` (`base.dfy`): `u32` for `entt::id_type`, `Option`, `Result`, and the two load errors.
- `Registries` (`registry.dfy`): `Entity` and `Registry`, which holds the valid
  entities, the component pools keyed by (entity, kind) and the context keyed
  by kind. It also defines `Schema` and the registry operations the code calls.
- `Snapshots` (`snapshot.dfy`): `RegistryArchive`, and helpers over vectors of
  pairs. `LastValue` is the pair that wins when a vector is replayed.
- `Codec` (`codec.dfy`): the archive as a stream of tokens, the optional and
  entity codecs, vectors and tuples, and the round-trip lemmas.
- `Serializer` (`serializer.dfy`): `serialize_registry` as pure functions,
  since the registry is `const` there, so capturing cannot change the store.
- `Deserializer` (`deserializer.dfy`): `deserialize_registry`, returning the
  registry after the load and the error if the read failed.
- `RoundTrip` (`roundtrip.dfy`): the round trip of the two halves, an
  executable `Serialize` method, and the demo scenario of `main`.

What the round trip preserves is `Project(S)`, the part of `S` that the
declared lists can see:

- the entities holding at least one declared component kind;
- the components of declared kinds, where an empty type's value is its
  `Components{}` placeholder;
- the context variables of declared kinds.

An entity that holds no declared component is not written, so it does not
come back. A store that only holds visible things comes back exactly
(`ProjectVisible`).

Two behaviours of the code are kept as written:

- The code detects no schema mismatch of its own. The model reports
  `SchemaMismatch` only when the token stream holds an item of the wrong kind
  at a position.
- Restoring is not transactional beyond what the code does. The archive is
  read in full before the reset, so a failed read leaves the registry
  untouched. For an archive that `serialize_registry` wrote from one
  registry, nothing in the replay can fail. The replay calls
  `registry.create(entity)` and then keeps using `entity`, so it relies on
  `create` returning the requested id. The model assumes this for every id
  (see `Registries.Create` under "## Left out").

## Model

| member | source | states |
|---|---|---|
| Codec.SaveOptional | src/main.cpp:17-24 | an absent optional is written as the single flag `false`; a present one as `true` followed by exactly the payload's encoding |
| Codec.LoadOptional | src/main.cpp:26-37 | a `false` flag yields an absent optional and consumes only the flag (the optional is reset) |
| Codec.OptionalRoundTrip | src/main.cpp:17-37 | whenever the payload codec round-trips, reading back a written optional gives the same optional (presence and value) and leaves the following tokens untouched |
| Codec.NestedOptionalRoundTrip | src/main.cpp:17-37 | the optional codec nests: an optional of an optional value round-trips too |
| Codec.IdOf | src/main.cpp:141-144 | casting a handle to its integer and back gives the same handle |
| Codec.IdCastExact | src/main.cpp:146-151 | casting an integer to a handle and back gives the same integer |
| Codec.SaveEntity | src/main.cpp:141-144 | an entity is written as one integer token that casts back to that same entity |
| Codec.LoadEntity | src/main.cpp:146-151 | reading succeeds exactly when the next token is an integer; what was read, written again, gives back the consumed tokens; an empty stream fails as truncated |
| Codec.EntityRoundTrip | src/main.cpp:141-151 | reading back a written entity succeeds and yields a handle with exactly the same integer bit pattern |
| Codec.LoadSeq | src/main.cpp:102 | a successful read of `n` items yields exactly `n` items |
| Codec.SeqRoundTrip | src/main.cpp:88 | items written one after another are read back in order, for any item codec that round-trips |
| Codec.VectorRoundTrip | src/main.cpp:48 | a component vector (length, then pairs of entity and value) reads back to the same vector |
| Codec.ArchiveRoundTrip | src/main.cpp:88 | reading a written `RegistryArchive` with the same type lists gives the same archive back and leaves what followed it |
| Codec.DecodeArchive | src/main.cpp:100-102 | a successful read yields one vector per declared component kind and one slot per declared context kind |
| Codec.EncodeArchive | src/main.cpp:88 | the written tokens read back, with the same numbers of kinds, to exactly the archive and nothing after it |
| Codec.OptionalTruncation | src/main.cpp:26-37 | if a cut-off payload is detected, a cut-off optional is reported as a truncated stream too |
| Codec.SeqTruncation | src/main.cpp:102 | every strict prefix of items written one after another fails to read as a truncated stream |
| Codec.ArchiveTruncated | src/main.cpp:100-102 | every strict prefix of a written archive fails to read as a truncated stream (`CorruptEncoding`), so reading a cut-off snapshot never succeeds |
| Registries.Empty | src/main.cpp:104 | a fresh registry is consistent and has no valid entity, no component and no context variable |
| Registries.Create | src/main.cpp:109-111 | creating an absent id adds exactly that id to the valid entities, changes no component or context variable, and keeps the registry consistent |
| Registries.EmplaceOrReplace | src/main.cpp:112 | afterwards the entity's component of that kind is the given value; every other component, the entities and the context are unchanged; consistency is kept |
| Registries.CtxEmplace | src/main.cpp:94 | a kind not yet held gets the value installed; an existing variable of that kind is kept and nothing changes; entities and components are untouched |
| Snapshots.LastValue | src/main.cpp:108-113 | the winning value for an entity exists exactly when the vector names the entity, and it is the value of the last pair naming it |
| Snapshots.AllKeysIff | src/main.cpp:106-115 | an entity is named by the snapshot exactly when some kind's vector names it |
| Serializer.Enumerate | src/main.cpp:59 | the visit covers every valid entity and nothing else, each exactly once |
| Serializer.Captured | src/main.cpp:62-73 | an entity holding an empty type contributes `Components{}`; otherwise it contributes its stored component |
| Serializer.CollectComponents | src/main.cpp:59-77 | the visit yields one vector per declared kind, and every pair in a kind's vector names a visited holder of that kind with its captured value |
| Serializer.CollectExact | src/main.cpp:59-77 | over a duplicate-free visit, a kind's vector names no entity twice and holds exactly the pairs (visited holder of the kind, its captured value) |
| Serializer.CaptureComplete | src/main.cpp:59-77 | over a visit of all valid entities, a kind's vector names exactly the holders of the kind, each once, each with its current value, or the placeholder for an empty type |
| Serializer.CaptureContext | src/main.cpp:79-86 | one slot per declared context kind; slot `i` is present iff the registry holds a context variable of kind `i`, and then it holds that value |
| Serializer.Capture | src/main.cpp:56-86 | the snapshot has exactly the shape the declared lists give it |
| Serializer.SerializeRegistry | src/main.cpp:52-89 | the written archive reads back, with the same lists, to exactly the captured snapshot |
| Deserializer.ReplayPair | src/main.cpp:108-113 | after replaying a pair its entity is valid (added if it was not) and its component of that kind is the pair's value; nothing else changes |
| Deserializer.ReplayKind | src/main.cpp:108-113 | replaying a kind adds exactly the entities its vector names, touches no context, and keeps the registry consistent |
| Deserializer.ReplayComponents | src/main.cpp:106-115 | replaying all kinds adds exactly the entities the snapshot names, touches no context, and keeps the registry consistent |
| Deserializer.ReplayKindEffect | src/main.cpp:108-113 | replaying a kind's vector adds exactly the named entities, gives each the kind's last recorded value, and changes no other kind, entity or context variable |
| Deserializer.ReplayComponentsEffect | src/main.cpp:104-115 | replaying all kinds into a fresh registry yields exactly the named entities and recorded components, last pair winning, and no context |
| Deserializer.SetContextVar | src/main.cpp:91-96 | an absent slot changes nothing; a present slot of a kind not yet held installs its value; entities and components are untouched |
| Deserializer.InstallContexts | src/main.cpp:117-121 | every present slot ends up installed, no other kind is added, existing variables are kept, and entities and components are untouched |
| Deserializer.InstallContextsEffect | src/main.cpp:117-121 | installing the slots into a registry without context leaves exactly the present slots as context variables, with their values |
| Deserializer.Rebuild | src/main.cpp:104-121 | from a fresh registry, the result is consistent and holds exactly the snapshot's entities, its recorded components (last pair winning) and its present context values |
| Deserializer.DeserializeRegistry | src/main.cpp:98-104 | the load fails exactly when reading the archive fails, and a failed load leaves the caller's registry unchanged |
| Deserializer.RestoreExact | src/main.cpp:98-122 | after a successful load, whatever the registry held before, it holds exactly the snapshot's entities, components (last pair winning) and present context values, and it is consistent |
| RoundTrip.RebuildValid | src/main.cpp:59-77 | the entities a capture names are exactly the holders of some declared kind |
| RoundTrip.RebuiltPoolsSound | src/main.cpp:106-115 | every component the replay of a capture creates is a visible component of the captured store, with its value |
| RoundTrip.RebuiltPoolsComplete | src/main.cpp:106-115 | every visible component of the captured store is recreated by the replay |
| RoundTrip.CaptureRestore | src/main.cpp:52-122 | rebuilding from a capture gives exactly the visible part of the captured store |
| RoundTrip.SnapshotRoundTrip | src/main.cpp:52-122 | loading what `serialize_registry` wrote, into any registry, succeeds and yields exactly the visible part of the captured store |
| RoundTrip.Serialize | src/main.cpp:52-89 | for every registry later loaded into, loading the written archive succeeds and restores the capture's visible part |
| RoundTrip.ProjectVisible | src/main.cpp:52-122 | a consistent store holding only declared, populated kinds and declared context kinds is its own visible part, so it round-trips exactly |
| RoundTrip.CaptureIdempotent | src/main.cpp:52-122 | capturing the restored store again gives the same context slots and, per kind, the same pairs without duplicates, in any order |
| RoundTrip.RecaptureKind | src/main.cpp:59-77 | capturing the restored store gives, for one kind, the same pairs as the first capture, each once |
| RoundTrip.RecaptureContext | src/main.cpp:79-86 | capturing the restored store gives the same context slots as the first capture |
| RoundTrip.DemoScenario | src/main.cpp:153-208 | in the demo, the mutated store (x = 100, context x = 99) is brought back to the saved one: x = 1, context x = 0 |
| RoundTrip.DemoUnusedKind | src/main.cpp:153-208 | in the demo the unused component kind `velocity` captures an empty vector and no entity holds it after the load |

## Left out

- File streams and console output in `main` are I/O scaffolding. Only the
  save, mutate and load sequence is kept, in `DemoScenario`.
- Cereal's archive formats (portable binary, XML) are not modelled. A token
  stream stands in for them. A vector is written as a length token followed
  by its elements, which is an assumption about cereal's own framing. A tuple
  is written as its fields one after another.
- The `serialize` functions for `position` and `velocity` are not modelled.
  Each writes its three floats; in the model a component or context value is
  one opaque token.
- Floating-point fields are not modelled. The demo uses integer triples (`Vec3`).
- Codec.LoadValue, Codec.LoadEntity, Codec.LoadOptional: rejecting an item of
  the wrong kind with `SchemaMismatch` is stricter than cereal's binary
  archive, which would misread the bytes instead.
- EnTT internals are not modelled: the sparse sets, the version bits inside
  a handle, the free list, and the order of `registry.each`. A visit order is
  a parameter, and `IsEnumeration` asks that it lists every valid entity
  once.
- Registries.Create: the EnTT headers are not part of this model. The model
  assumes that `registry.create(hint)` for an id that is not valid creates
  exactly that id. This holds for ids of entities that were valid in one
  registry, which is all `serialize_registry` writes. An arbitrary archive
  that decodes may carry ids for which EnTT returns a different handle, for
  example the null entity. The code discards the returned handle and goes
  on with the recorded id, and the model does not cover that case.
- `ctx().emplace` keeps an existing variable of the same kind. After the
  reset there never is one.
- A type listed twice in one type list does not compile (`std::get` by
  type), so kind indices are distinct by construction.
- Using the same type lists for capture and restore is the caller's
  obligation. Nothing in the code checks it: the two `type_list`s are written
  out separately at the save and the load in `main`. The round-trip lemmas
  pass one `Schema` to both halves. No lemma covers loading with a schema
  that differs from the one used at capture. Such a load may fail, or may
  read the data as different kinds.
- Empty component types carry no data in EnTT. The model stores a value for
  them and captures the schema's placeholder (`Components{}`) instead of it.

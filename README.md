# Packet-analysis dispatch configuration

This project models the dispatch configuration of Zeek's packet-analysis
framework, `src/packet_analysis/Config.h`. It also proves properties of
that model.

- A **dispatcher** (`DispatcherConfig`) is one named routing table. It maps a
  32-bit protocol identifier (an Ethertype, an IP protocol number, a port) to
  the name of the analyzer that decodes traffic carrying that identifier.
- A **configuration** (`Config`) holds the dispatchers in the order they
  were added. You can look a dispatcher up by name, append a new one, or
  add a binding to a dispatcher chosen by its name.

The model has three files:

- `Wrappers.dfy` holds `Option`, which stands for `std::optional`.
- `DispatchTables.dfy` (module `DispatchTables`) is the value-level model.
  - `Dispatcher` is a datatype holding a name and a
    `map<Identifier, string>`. `Identifier` is the integers in
    `[0, 2^32)`, which is `uint32_t`.
  - A configuration's value is a `seq<Dispatcher>`.
  - Every mutating operation is a pure function of that value: `Empty`,
    `Bind`, `AddDispatcher` and `AddMappingByName`.
  - The lookup is `Find`.
  - `Replay` runs a trace of calls.
  - `Build` binds a list of pairs into one dispatcher.
  - The lemmas state the properties of these functions.
- `PacketAnalysis.dfy` (module `PacketAnalysis`) holds the two classes, with
  the state they update in place.
  - `DispatcherConfig` has a `const name` and a `var mappings`.
  - `Config` has `var dispatchers: seq<DispatcherConfig>`. This is a sequence
    of object references, so the handle that `AddDispatcherConfig` and
    `GetDispatcherConfig` return is the dispatcher object itself.
  - `Config.Valid()` says that no object appears twice, because the
    configuration owns each dispatcher once.
  - `Config.Snapshot()` is the configuration's value.
  - Each mutating method's `ensures` ties the new `Snapshot()` or `Value()` to
    the matching function of `DispatchTables`, applied to the old one.
  - `EthernetScenario` and `UnknownNameScenario` are client methods. They show
    that the contracts alone are enough to derive the expected lookups.

`GetName`, `GetMappings` and `GetDispatchers` (Config.h:17-18, 33) read
fields. Each one's contract ties what it returns to the value the object
holds.

## Policies the header does not fix

The header declares the operations but does not contain their bodies. The
model chooses four policies. None of them comes from the header:

1. **`DispatcherConfig::AddMapping` on an identifier that is already bound:**
   the new binding replaces the old one (last write wins). See `Bind` and
   `BindOverwrites`.
2. **`Config::AddMapping` with a name that no dispatcher has:** a dispatcher
   with that name is appended, and the binding is added to it. See
   `AddMappingByName`.
3. **`AddDispatcherConfig` with a name that is already present:** the new
   dispatcher is appended anyway. Lookup returns the first dispatcher with a
   given name, so the later duplicate can never be reached by name. See
   `Find` and `AddDispatcherShadows`.
4. **`DispatcherConfig::operator==` and `operator!=`:** the header only
   declares them (Config.h:22-23). The model takes `==` to compare the name
   and the contents of the table, and `!=` to be its negation. See `Equals`,
   `NotEquals` and `EqualsIsEquivalence`.

Under these policies, dispatcher names need not be unique. Unique
dispatcher names are the intended invariant of a configuration. The model
proves when it holds:

- `Config::AddMapping` always preserves it.
- `AddDispatcherConfig` preserves it exactly when the name is new.
- A configuration built only through `Config::AddMapping` always has it.

## Model

| member | source | states |
|---|---|---|
| `PacketAnalysis.DispatcherConfig.constructor` | src/packet_analysis/Config.h:15 | The new dispatcher has the given name, so `GetName()` returns the argument, and it has no bindings. |
| `PacketAnalysis.DispatcherConfig.GetName` | src/packet_analysis/Config.h:17 | Returns the name part of the dispatcher's value, which is fixed by the constructor. |
| `PacketAnalysis.DispatcherConfig.GetMappings` | src/packet_analysis/Config.h:18 | Returns the table: every identifier looks up in it exactly as in the dispatcher's value. |
| `PacketAnalysis.DispatcherConfig.AddMapping` | src/packet_analysis/Config.h:20 | The new value is `Bind` of the old value. So `identifier` is bound to `analyzerName`, every other identifier keeps its binding, and the name stays the same. |
| `PacketAnalysis.DispatcherConfig.Equals` | src/packet_analysis/Config.h:22 | `operator==` holds exactly when the names are equal and every identifier looks up to the same analyzer, or to none, in both tables. It compares content, not layout. |
| `PacketAnalysis.DispatcherConfig.NotEquals` | src/packet_analysis/Config.h:23 | `operator!=`, written on the fields, is exactly the negation of `operator==`. |
| `PacketAnalysis.EqualsIsEquivalence` | src/packet_analysis/Config.h:22-23 | `operator==` is reflexive, symmetric and transitive, and it agrees with equality of the dispatchers' values. |
| `PacketAnalysis.Config.constructor` | src/packet_analysis/Config.h:39 | A new configuration holds no dispatchers. |
| `PacketAnalysis.Config.GetDispatchers` | src/packet_analysis/Config.h:33 | Returns the held dispatchers in order; their values are exactly the configuration's value. |
| `PacketAnalysis.Config.GetDispatcherConfig` | src/packet_analysis/Config.h:34 | The result is absent exactly when no dispatcher has the name. Otherwise it is a held dispatcher whose `GetName()` is the name, namely the one at the position `Find` selects. The linear search is proved against `Find`. |
| `PacketAnalysis.Config.AddDispatcherConfig` | src/packet_analysis/Config.h:35 | `dispatchers` grows by one fresh object at the end. That object has the given name and no bindings, and it is what the call returns. Earlier elements, their order and their values do not change. |
| `PacketAnalysis.Config.AddMapping` | src/packet_analysis/Config.h:36 | The new value is `AddMappingByName` of the old one. The earlier handles stay in place as a prefix. At most one fresh dispatcher is appended. |
| `DispatchTables.LookupExtensional` | src/packet_analysis/Config.h:27 | Two tables are equal exactly when every identifier looks up the same in both. This is the meaning of equality of the key-unique `std::map`. |
| `DispatchTables.Empty` | src/packet_analysis/Config.h:15 | A constructed dispatcher has the given name and binds no identifier. |
| `DispatchTables.Bind` | src/packet_analysis/Config.h:20 | After the call, `id` looks up to the analyzer. Every other identifier looks up as before, and the name is unchanged. |
| `DispatchTables.BindOverwrites` | src/packet_analysis/Config.h:20 | Binding `(id, A)` and then `(id, B)` is the same as binding `(id, B)` alone. Exactly one binding for `id` remains, and it is `B`. |
| `DispatchTables.BuildBindings` | src/packet_analysis/Config.h:20 | Suppose a dispatcher is built by constructing it and adding pairs with distinct identifiers. It keeps its name, and it binds `id` to `a` exactly when `(id, a)` is one of the pairs. |
| `DispatchTables.BuildOrderIrrelevant` | src/packet_analysis/Config.h:20-22 | Binding the same set of pairs with distinct identifiers in any order gives equal dispatchers. |
| `DispatchTables.BuildDetectsRename` | src/packet_analysis/Config.h:22 | Whatever pairs are bound, the built dispatcher keeps its name, so two names give dispatchers that are not equal. |
| `DispatchTables.BuildDetectsPairChange` | src/packet_analysis/Config.h:22 | With distinct identifiers, replacing any one pair by a different pair (new identifier, new analyzer, or both) gives a dispatcher that is not equal. |
| `DispatchTables.Find` | src/packet_analysis/Config.h:34 | The result is absent exactly when no dispatcher has the name. Otherwise it is a position holding that name, and no earlier position holds it (first match). |
| `DispatchTables.FindSameNames` | src/packet_analysis/Config.h:34 | Lookup depends only on the sequence of names. |
| `DispatchTables.FindAppend` | src/packet_analysis/Config.h:34-35 | Appending a dispatcher leaves an existing lookup unchanged. A lookup that was absent finds the appended dispatcher exactly when it has that name. |
| `DispatchTables.FindUnique` | src/packet_analysis/Config.h:34 | Where names are unique, lookup returns position `i` exactly when position `i` holds the name. |
| `DispatchTables.AddDispatcher` | src/packet_analysis/Config.h:35 | Appending keeps every earlier dispatcher and its position. It adds exactly one empty dispatcher with the given name at the end. |
| `DispatchTables.AddDispatcherShadows` | src/packet_analysis/Config.h:34-35 | A new name is then found at the new last position. A name already present keeps resolving to its earlier dispatcher, so the duplicate is unreachable. Other names resolve as before. |
| `DispatchTables.AddDispatcherUnique` | src/packet_analysis/Config.h:35 | After appending, names are unique exactly when they were unique before and the name was absent. |
| `DispatchTables.AddMappingByName` | src/packet_analysis/Config.h:36 | If the name exists, the length is unchanged. If not, one dispatcher with that name is appended. The earlier names stay in order as a prefix. Every dispatcher other than the selected one is unchanged. |
| `DispatchTables.AddMappingAsUpdate` | src/packet_analysis/Config.h:34-36 | `Config::AddMapping` works in two steps. It makes sure a dispatcher with the name exists, then binds in the dispatcher that lookup selects. |
| `DispatchTables.AddMappingResolves` | src/packet_analysis/Config.h:34-36 | After `AddMapping(n, id, a)`, the name `n` is found. A name that was already found stays at the same position. Looking up `id` in the dispatcher found for `n` yields `a`. |
| `DispatchTables.AddMappingFindsSame` | src/packet_analysis/Config.h:34-36 | `AddMapping` changes no lookup by name, except that a created dispatcher is found at the new last position. |
| `DispatchTables.AddMappingFrame` | src/packet_analysis/Config.h:36 | `AddMapping(n, id, a)` changes no other `(name, identifier)` lookup. |
| `DispatchTables.AddMappingKeepsUnique` | src/packet_analysis/Config.h:36 | `AddMapping` never makes two dispatchers share a name. |
| `DispatchTables.ApplyKeepsOrder` | src/packet_analysis/Config.h:35-36 | Neither mutating call removes, reorders or renames a dispatcher. |
| `DispatchTables.ReplayKeepsOrder` | src/packet_analysis/Config.h:33-39 | Whatever calls follow, the dispatchers present now keep their names and positions. The order of the dispatchers is the order in which they were created. |
| `DispatchTables.ReplayMappingsUnique` | src/packet_analysis/Config.h:36-39 | A configuration built only by `Config::AddMapping` never holds two dispatchers with the same name. |

## Left out

- The out-of-line bodies of the methods are not part of this model. The four policies above stand in for what they decide.
- Any debug logging or error reporting in those bodies is left out; the four policies above stand in for their effect.
- A reference returned by `AddDispatcherConfig` or `GetDispatcherConfig` becomes invalid when the vector reallocates. That is not modelled: a handle is a Dafny object reference and stays valid.
- `std::reference_wrapper` and `std::optional` are not modelled beyond `Option<DispatcherConfig>`.
- There is no synchronisation and no hot reload. The model is single-threaded.
- The code that parses configuration files and feeds names and identifiers into `Config` is not modelled, and neither are the analyzers that the names resolve to.
- Names are opaque strings. There is no encoding and no validation.
- `std::map` iterates in key order. Dafny's `map` has no order, so only content is modelled; the equality the model chooses (policy 4) compares content.
- `PacketAnalysis.Config.GetDispatcherConfig` is a method because it runs a loop. Functions and lemmas use `DispatchTables.Find`, which it is proved to agree with.

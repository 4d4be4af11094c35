# PhoenixBuilder packet pool, in Dafny

This project models the packet-type registry of PhoenixBuilder's `packet`
package (`fastbuilder/external/packet/pool.go`). The registry has two parts:

- **The packet-type ID constants.** `IDPingPacket` to `IDGamePacket` are
  declared in one const block with `iota + 1`, so they take the values 1 to 7
  in declaration order.
- **`PacketPool`.** A map literal keyed by `uint8` binds each ID to a
  zero-argument factory. The factory returns `&T{}`, a newly allocated, empty
  instance of the packet type with the same name.

The model lives in `pool.dfy`, module `Pool`; `wrappers.dfy` holds the
`Option` type used for lookups. The pieces of the model:

- `Kind` has one constructor per concrete packet type.
- `ConstBlock` lists the const specs in declaration order. `Iota` gives a
  spec's index in the block, and `ID(k)` is `iota + 1` for type `k`.
- `PoolEntries` holds the entries of the composite literal in source order.
  Each key is converted to `uint8`, and Dafny checks that conversion, as Go
  checks at compile time that a constant key does not overflow `uint8`.
  `MapOf` gives the map a literal with those entries denotes, and
  `PacketPool` is that map.
- `Lookup` is the comma-ok lookup `f, ok := PacketPool[id]`, returning the
  type that `f` allocates.
- `NewPacket` is the factory bound to a type's ID: it allocates a `Packet`
  object that carries that type. `Instantiate` looks an ID up and then calls
  the factory found there.

## Model

| member | source | states |
|---|---|---|
| `Pool.Iota` | fastbuilder/external/packet/pool.go:3-11 | iota of the spec naming a type is an index into the block where that type is declared, and no earlier spec names it |
| `Pool.EveryKindDeclared` | fastbuilder/external/packet/pool.go:3-11 | every packet type has an ID spec in the const block |
| `Pool.ID` | fastbuilder/external/packet/pool.go:3-11 | a type's ID lies in 1..7 (so it fits in `uint8` and is never 0), and the spec at position ID - 1 declares that type |
| `Pool.IDInDeclarationOrder` | fastbuilder/external/packet/pool.go:3-11 | the i-th declared constant has the value i + 1: the IDs are consecutive in declaration order |
| `Pool.IDValues` | fastbuilder/external/packet/pool.go:4-10 | Ping = 1, Pong = 2, Bye = 3, PacketViolationWarning = 4, EvalPBCommand = 5, GameCommand = 6, Game = 7 |
| `Pool.IDInjective` | fastbuilder/external/packet/pool.go:3-11 | two packet types share an ID exactly when they are the same type |
| `Pool.MapOf` | fastbuilder/external/packet/pool.go:13-21 | a map literal's keys are exactly its entries' keys; when no two entries share a key, the map has one binding per entry and each key yields its own entry's type |
| `Pool.NumberedMap` | fastbuilder/external/packet/pool.go:13-21 | a literal whose i-th entry binds i + 1 to the i-th declared type has distinct keys, binds exactly 1..n, and key i yields the (i-1)-th type |
| `Pool.PoolShape` | fastbuilder/external/packet/pool.go:13-21 | the literal's seven keys are distinct; `PacketPool` binds every type's ID to that type, binds exactly the keys 1..7, each bound type's ID is its key, and it has 7 entries |
| `Pool.Lookup` | fastbuilder/external/packet/pool.go:13-21 | a factory is found exactly for IDs 1..7 (none for 0, 8 or 255), and the type it allocates has the looked-up ID |
| `Pool.PoolKeys` | fastbuilder/external/packet/pool.go:13-21 | the key set of `PacketPool` is exactly the set of declared IDs, there are 7 keys, and 0 is not one of them |
| `Pool.LookupID` | fastbuilder/external/packet/pool.go:14-20 | looking up a type's ID finds the factory of that same type (for example `IDPingPacket` yields `PingPacket`) |
| `Pool.PoolInjective` | fastbuilder/external/packet/pool.go:14-20 | two registered IDs yield the same packet type exactly when they are the same ID |
| `Pool.Packet.constructor` | fastbuilder/external/packet/pool.go:14-20 | a new packet carries the type it was created as |
| `Pool.NewPacket` | fastbuilder/external/packet/pool.go:14-20 | a factory call returns a newly allocated packet of the factory's type |
| `Pool.Instantiate` | fastbuilder/external/packet/pool.go:13-21 | looking up an ID and calling its factory gives a packet exactly when the ID is registered; that packet is fresh and has the registered type |
| `Pool.InstantiateTwice` | fastbuilder/external/packet/pool.go:14-20 | two calls of the factory for the same ID return two distinct fresh objects, both of the type the pool binds to that ID; both succeed exactly when the ID is in the pool |

## Left out

- `fastbuilder/script_engine/bridge/kickstarter/kickstart.go` is not part of
  this model. It creates a V8 isolate, reads files, fetches URLs over HTTP,
  hashes with library calls and runs scripts on a goroutine; all of that is
  I/O or foreign code.
- The `Packet` interface and each packet type's `Encode`/`Decode` are not
  part of this model: their source is not among the modelled files. A
  `Packet` object carries only its type tag.
- Pool.NewPacket: "zero-valued" is modelled only as "newly allocated, with
  nothing set". The fields of the seven concrete packet types are not part of
  this model, so their zero values cannot be stated.
- Pool.NewPacket: the model assumes every packet type has non-zero size. Its
  `fresh` postcondition holds because Dafny's `new` always yields a distinct
  reference. In Go, pointers to distinct zero-size variables may be equal:
  the gc runtime gives every zero-size allocation the same address. The
  struct definitions are not part of this model, so some types may be
  `struct{}`. Such a packet has no fields, so nothing can be shared between
  two instances, and independence holds either way.
- Pool.InstantiateTwice: `first.value != second.value` rests on the same
  non-zero-size assumption as `Pool.NewPacket`. For a zero-size packet type,
  Go may return equal pointers from two calls of one factory.
- Pool.Instantiate: in Go, indexing `PacketPool` with an absent key yields a
  nil function, and calling that panics. The model instead looks the key up
  comma-ok style and returns `None` for an absent key, without modelling the
  panic.
- A runtime `Register` operation with a `DuplicateID` error, and a frame
  dispatcher (`DecodeFrame`, with truncated-frame and unknown-ID errors), are
  not modelled: `pool.go` has no such code, and the table is a literal. Go's
  compiler rejects duplicate constant keys in a literal, so the model proves
  instead that the literal's keys are distinct (`Pool.PoolShape`).
- Run-time writes to the exported global variable `PacketPool`, and
  concurrent access to it, are not modelled: the model treats the pool as the
  constant its initialiser denotes.

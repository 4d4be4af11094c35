/**
 The packet-type registry of the `packet` package: the block of packet-type ID
 constants numbered with `iota + 1`, and `PacketPool`, the map from a `uint8`
 ID to the zero-argument factory that allocates an empty packet of that type.
 */
module Pool {
  import opened Wrappers

  /** Go's `uint8`, the key type of `PacketPool`. */
  newtype uint8 = x: int | 0 <= x < 0x100

  /** The concrete packet types that the factories of `PacketPool` allocate. */
  datatype Kind =
    | PingPacket
    | PongPacket
    | ByePacket
    | PacketViolationWarningPacket
    | EvalPBCommandPacket
    | GameCommandPacket
    | GamePacket

  /** The specs of the ID const block, in declaration order; the i-th spec
      declares the ID of the packet type it names. */
  const ConstBlock: seq<Kind> := [
    PingPacket,
    PongPacket,
    ByePacket,
    PacketViolationWarningPacket,
    EvalPBCommandPacket,
    GameCommandPacket,
    GamePacket
  ]

  /** No packet type is named by two specs of a sequence. */
  predicate Distinct(block: seq<Kind>) {
    forall i, j :: 0 <= i < j < |block| ==> block[i] != block[j]
  }

  /** Go's `iota` for the spec naming `k`: the spec's index within the block. */
  function Iota(k: Kind, block: seq<Kind>): (i: nat)
    requires k in block
    ensures i < |block| && block[i] == k
    ensures forall j :: 0 <= j < i ==> block[j] != k
  {
    if block[0] == k then 0 else 1 + Iota(k, block[1..])
  }

  /** The const block declares an ID for every packet type. */
  lemma EveryKindDeclared(k: Kind)
    ensures k in ConstBlock
  {
    match k
    case PingPacket => assert ConstBlock[0] == k;
    case PongPacket => assert ConstBlock[1] == k;
    case ByePacket => assert ConstBlock[2] == k;
    case PacketViolationWarningPacket => assert ConstBlock[3] == k;
    case EvalPBCommandPacket => assert ConstBlock[4] == k;
    case GameCommandPacket => assert ConstBlock[5] == k;
    case GamePacket => assert ConstBlock[6] == k;
  }

  /** The value of the untyped ID constant of packet type `k`: `iota + 1`. */
  function ID(k: Kind): (id: int)
    ensures 1 <= id <= |ConstBlock|
    ensures ConstBlock[id - 1] == k
  {
    EveryKindDeclared(k);
    Iota(k, ConstBlock) + 1
  }

  const IDPingPacket: int := ID(PingPacket)
  const IDPongPacket: int := ID(PongPacket)
  const IDByePacket: int := ID(ByePacket)
  const IDPacketViolationWarningPacket: int := ID(PacketViolationWarningPacket)
  const IDEvalPBCommandPacket: int := ID(EvalPBCommandPacket)
  const IDGameCommandPacket: int := ID(GameCommandPacket)
  const IDGamePacket: int := ID(GamePacket)

  /** The entries of the `PacketPool` composite literal in source order: the
      key, converted to `uint8`, and the packet type its factory allocates.
      Each conversion is checked, as Go checks at compile time that a
      constant key does not overflow `uint8`. */
  const PoolEntries: seq<(uint8, Kind)> := [
    (IDPingPacket as uint8, PingPacket),
    (IDPongPacket as uint8, PongPacket),
    (IDByePacket as uint8, ByePacket),
    (IDPacketViolationWarningPacket as uint8, PacketViolationWarningPacket),
    (IDEvalPBCommandPacket as uint8, EvalPBCommandPacket),
    (IDGameCommandPacket as uint8, GameCommandPacket),
    (IDGamePacket as uint8, GamePacket)
  ]

  /** No two entries of a map literal share a key; Go refuses to compile a
      literal with duplicate constant keys. */
  predicate DistinctKeys(entries: seq<(uint8, Kind)>) {
    forall i, j :: 0 <= i < j < |entries| ==> entries[i].0 != entries[j].0
  }

  /** The map a literal with these entries denotes (a later entry wins). */
  function MapOf(entries: seq<(uint8, Kind)>): (m: map<uint8, Kind>)
    ensures m.Keys == set e | e in entries :: e.0
    ensures DistinctKeys(entries) ==> |m| == |entries|
    ensures DistinctKeys(entries) ==>
      forall i :: 0 <= i < |entries| ==> m[entries[i].0] == entries[i].1
  {
    if entries == [] then map[]
    else
      var init, last := entries[..|entries| - 1], entries[|entries| - 1];
      var m := MapOf(init)[last.0 := last.1];
      assert entries == init + [last];
      m
  }

  /** `PacketPool`: each ID bound to the factory of its packet type. */
  const PacketPool: map<uint8, Kind> := MapOf(PoolEntries)

  /** The lookup `f, ok := PacketPool[id]`, naming the type `f` allocates. */
  function Lookup(id: uint8): (r: Option<Kind>)
    ensures r.Some? <==> 1 <= id as int <= |ConstBlock|
    ensures r.Some? ==> ID(r.value) == id as int
  {
    PoolShape();
    if id in PacketPool then Some(PacketPool[id]) else None
  }

  /** The const block declares each packet type once. */
  lemma ConstBlockDistinct()
    ensures Distinct(ConstBlock)
  {
  }

  /** In a block that names no type twice, `iota` of the i-th spec is i. */
  lemma IotaAt(block: seq<Kind>, i: nat)
    requires Distinct(block) && i < |block|
    ensures Iota(block[i], block) == i
  {
  }

  /** The IDs are consecutive in declaration order, starting from 1. */
  lemma IDInDeclarationOrder(i: nat)
    requires i < |ConstBlock|
    ensures ID(ConstBlock[i]) == i + 1
  {
    ConstBlockDistinct();
    EveryKindDeclared(ConstBlock[i]);
    IotaAt(ConstBlock, i);
  }

  /** The literal's entries, read as a whole: the i-th binds ID i + 1 to
      the i-th declared type. */
  lemma EntriesShape()
    ensures |PoolEntries| == |ConstBlock|
    ensures forall i :: 0 <= i < |PoolEntries| ==> PoolEntries[i] == ((i + 1) as uint8, ConstBlock[i])
  {
    IDValues();
    assert PoolEntries == [
      (1, PingPacket), (2, PongPacket), (3, ByePacket), (4, PacketViolationWarningPacket),
      (5, EvalPBCommandPacket), (6, GameCommandPacket), (7, GamePacket)
    ];
  }

  /** A literal whose i-th entry binds i + 1 to the i-th type of a block
      denotes a map whose keys are 1..|block| and whose key i + 1 yields the
      i-th type. */
  lemma NumberedMap(entries: seq<(uint8, Kind)>, block: seq<Kind>)
    requires |entries| == |block| < 0x100
    requires forall i :: 0 <= i < |entries| ==> entries[i] == ((i + 1) as uint8, block[i])
    ensures DistinctKeys(entries)
    ensures |MapOf(entries)| == |block|
    ensures forall id: uint8 :: id in MapOf(entries) <==> 1 <= id as int <= |block|
    ensures forall id: uint8 :: id in MapOf(entries) ==> MapOf(entries)[id] == block[id - 1]
  {
    var m := MapOf(entries);
    forall id: uint8 | 1 <= id as int <= |block| ensures id in m {
      assert entries[id - 1] in entries;
    }
    forall id: uint8 | id in m ensures 1 <= id as int <= |block| {
      var e :| e in entries && e.0 == id;
      var i :| 0 <= i < |entries| && entries[i] == e;
    }
  }

  /** A map that binds exactly 1 to 7, the i-th key to the i-th declared
      type, binds each type's ID to that type and nothing else. */
  lemma NumberedByID(m: map<uint8, Kind>)
    requires forall id: uint8 :: id in m <==> 1 <= id as int <= |ConstBlock|
    requires forall id: uint8 :: id in m ==> m[id] == ConstBlock[id - 1]
    ensures forall k :: ID(k) as uint8 in m && m[ID(k) as uint8] == k
    ensures forall id :: id in m ==> ID(m[id]) == id as int
  {
    forall id | id in m ensures ID(m[id]) == id as int {
      IDInDeclarationOrder(id as int - 1);
    }
  }

  /** `PacketPool` binds exactly the IDs 1 to 7, each to the type declared
      with it, and nothing else. */
  lemma PoolShape()
    ensures forall k :: ID(k) as uint8 in PacketPool && PacketPool[ID(k) as uint8] == k
    ensures forall id :: id in PacketPool <==> 1 <= id as int <= |ConstBlock|
    ensures forall id :: id in PacketPool ==> ID(PacketPool[id]) == id as int
    ensures |PacketPool| == |ConstBlock|
    ensures DistinctKeys(PoolEntries)
  {
    EntriesShape();
    NumberedMap(PoolEntries, ConstBlock);
    NumberedByID(PacketPool);
  }

  // Properties of the ID constants

  /** The seven IDs are 1 to 7 in declaration order. */
  lemma IDValues()
    ensures IDPingPacket == 1 && IDPongPacket == 2 && IDByePacket == 3
    ensures IDPacketViolationWarningPacket == 4 && IDEvalPBCommandPacket == 5
    ensures IDGameCommandPacket == 6 && IDGamePacket == 7
  {
    IDInDeclarationOrder(0);
    IDInDeclarationOrder(1);
    IDInDeclarationOrder(2);
    IDInDeclarationOrder(3);
    IDInDeclarationOrder(4);
    IDInDeclarationOrder(5);
    IDInDeclarationOrder(6);
  }

  /** Distinct packet types have distinct IDs. */
  lemma IDInjective(a: Kind, b: Kind)
    ensures ID(a) == ID(b) <==> a == b
  {
  }

  // Properties of PacketPool

  /** A map that binds the ID of every type, each to its own type, has the
      declared IDs as its keys. */
  lemma KeysAreDeclaredIDs(m: map<uint8, Kind>)
    requires forall k :: ID(k) as uint8 in m
    requires forall id :: id in m ==> ID(m[id]) == id as int
    ensures m.Keys == set k | k in ConstBlock :: ID(k) as uint8
  {
    forall id | id in m ensures id in set k | k in ConstBlock :: ID(k) as uint8 {
      EveryKindDeclared(m[id]);
    }
  }

  /** The keys of the pool are exactly the declared IDs, seven of them, and
      none of them is 0. */
  lemma PoolKeys()
    ensures PacketPool.Keys == set k | k in ConstBlock :: ID(k) as uint8
    ensures |PacketPool| == |ConstBlock| == 7
    ensures 0 !in PacketPool
  {
    PoolShape();
    KeysAreDeclaredIDs(PacketPool);
  }

  /** Each ID is bound to the factory of its own packet type. */
  lemma LookupID(k: Kind)
    ensures Lookup(ID(k) as uint8) == Some(k)
  {
    PoolShape();
  }

  /** No two IDs are bound to factories of the same packet type. */
  lemma PoolInjective(a: uint8, b: uint8)
    requires a in PacketPool && b in PacketPool
    ensures PacketPool[a] == PacketPool[b] <==> a == b
  {
    PoolShape();
  }

  // The factories

  /** An instance of one of the concrete packet types, seen through the
      `Packet` interface. Only its type is modelled. */
  class Packet {
    const kind: Kind

    constructor (kind: Kind)
      ensures this.kind == kind
    {
      this.kind := kind;
    }
  }

  /** The factory bound to the ID of `k`: `&T{}` for the type `T` that `k`
      names, a newly allocated, empty packet on every call. */
  method NewPacket(k: Kind) returns (p: Packet)
    ensures fresh(p) && p.kind == k
  {
    p := new Packet(k);
  }

  /** Looks `id` up in the pool and, when a factory is bound to it, calls it. */
  method Instantiate(id: uint8) returns (r: Option<Packet>)
    ensures r.None? <==> Lookup(id).None?
    ensures r.Some? ==> fresh(r.value) && Lookup(id) == Some(r.value.kind)
  {
    match Lookup(id)
    case None =>
      r := None;
    case Some(k) =>
      var p := NewPacket(k);
      r := Some(p);
  }

  /** Two calls of the same factory yield two distinct objects of the same
      type, so no decode can observe another's packet. */
  method InstantiateTwice(id: uint8) returns (first: Option<Packet>, second: Option<Packet>)
    ensures first.Some? <==> second.Some?
    ensures first.Some? <==> id in PacketPool
    ensures first.Some? ==> fresh(first.value) && fresh(second.value)
    ensures first.Some? ==> first.value != second.value && first.value.kind == second.value.kind
    ensures first.Some? ==> first.value.kind == PacketPool[id]
  {
    first := Instantiate(id);
    second := Instantiate(id);
  }
}

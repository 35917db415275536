/** The memory-bus address decoder of
    Behavioral/Chain_of_responsibility/chain_of_responsibility.cpp.

    A chain of handlers passes a read or write request along until one handler
    claims the address.  The four C++ classes are one class here with a
    `Device` tag; each handler owns the storage its device needs (the RAM bytes,
    the flash word map).  The chain a request walks is passed alongside as a
    ghost sequence of handlers linked through `next`.  What a device does with a
    claimed request is the function Serve on a Memory value, and the method is
    proved to act as the first claiming handler's Serve. */
module MemoryBus {
  import opened Common

  /** `MainMemoryBusHandler::RAM_SIZE`: 32 MB. */
  const RAM_SIZE: nat := 32 * 1024 * 1024
  /** `sizeof(data)`: a word is 4 bytes. */
  const WORD: nat := 4
  /** What the ROM reads as at every address. */
  const ROM_WORD: u32 := 0xDA7A_DA7A
  const FLASH_START: u32 := 0x4000
  const FLASH_END: u32 := 0x80_0000

  datatype Access = Write | Read

  /** Which of the four handler classes a handler is. */
  datatype Device =
    | Forwarder                       // the plain `BusHandler`
    | MainMemory(base: u32)
    | Rom(base: u32, size: u64)
    | FlashMemory

  /** The answer: the return value, and `data` as the caller sees it afterwards. */
  datatype Reply = Reply(handled: bool, data: u32)

  /** What a handler stores: RAM bytes and flash words (each device uses one). */
  datatype Memory = Memory(bytes: seq<u8>, words: map<u32, u32>)

  // ---------------------------------------------------------------- words as bytes

  /** The four bytes `memcpy` copies out of a word, least significant first (a
      little-endian host). */
  function WordBytes(w: u32): (b: seq<u8>)
    ensures |b| == WORD
  {
    [w % 0x100, (w / 0x100) % 0x100, (w / 0x1_0000) % 0x100, w / 0x100_0000]
  }

  /** The word four bytes make, least significant first. */
  function BytesWord(b: seq<u8>): u32
    requires |b| == WORD
  {
    b[0] as int + 0x100 * b[1] as int + 0x1_0000 * b[2] as int + 0x100_0000 * b[3] as int
  }

  /** Reading back the bytes of a word gives the word. */
  lemma WordRoundTrip(w: u32)
    ensures BytesWord(WordBytes(w)) == w
  {
    var b := WordBytes(w);
    assert w == b[0] + 0x100 * (w / 0x100);
    assert w / 0x100 == b[1] + 0x100 * (w / 0x1_0000);
    assert w / 0x1_0000 == b[2] as int + 0x100 * b[3] as int;
  }

  /** The RAM bytes after a 4-byte write at offset off. */
  function StoreWord(bytes: seq<u8>, off: nat, w: u32): (r: seq<u8>)
    requires off + WORD <= |bytes|
    ensures |r| == |bytes|
    ensures r[off..off + WORD] == WordBytes(w)
    ensures forall i :: 0 <= i < |bytes| && !(off <= i < off + WORD) ==> r[i] == bytes[i]
  {
    bytes[..off] + WordBytes(w) + bytes[off + WORD..]
  }

  function LoadWord(bytes: seq<u8>, off: nat): u32
    requires off + WORD <= |bytes|
  {
    BytesWord(bytes[off..off + WORD])
  }

  // ---------------------------------------------------------------- one device

  /** Whether a device takes charge of an address; the bounds are computed in
      `size_t`, so a ROM whose base + size is below 4 wraps to a huge bound. */
  predicate Claims(d: Device, address: u32)
  {
    match d
    case Forwarder => false
    case MainMemory(base) => base <= address < base + RAM_SIZE - WORD
    case Rom(base, size) => base <= address < (base + size + TWO_64 - WORD) % TWO_64
    case FlashMemory => FLASH_START <= address < FLASH_END - WORD
  }

  /** A memory fit for a device: RAM holds RAM_SIZE bytes. */
  predicate Fits(d: Device, m: Memory)
  {
    d.MainMemory? ==> |m.bytes| == RAM_SIZE
  }

  /** What a device does with a request it claims: the reply and its new memory. */
  function Serve(d: Device, m: Memory, address: u32, access: Access, data: u32): (r: (Reply, Memory))
    requires Claims(d, address) && Fits(d, m)
  {
    match d
    case MainMemory(base) =>
      var off := address - base;
      if access == Read then (Reply(true, LoadWord(m.bytes, off)), m)
      else (Reply(true, data), m.(bytes := StoreWord(m.bytes, off, data)))
    case Rom(_, _) =>
      if access == Read then (Reply(true, ROM_WORD), m) else (Reply(false, data), m)
    case FlashMemory =>
      if address % WORD != 0 then (Reply(false, data), m)
      else if access == Write then (Reply(true, data), m.(words := m.words[address := data]))
      else (Reply(true, if address in m.words then m.words[address] else 0), m)
  }

  /** The first device of the chain that claims the address; |devices| if none. */
  function Route(devices: seq<Device>, address: u32): (k: nat)
    ensures k <= |devices|
    ensures forall i :: 0 <= i < k ==> !Claims(devices[i], address)
    ensures k < |devices| ==> Claims(devices[k], address)
  {
    if devices == [] then 0
    else if Claims(devices[0], address) then 0
    else 1 + Route(devices[1..], address)
  }

  /** Memories that fit their devices. */
  predicate AllFit(ds: seq<Device>, ms: seq<Memory>)
  {
    |ds| == |ms| && forall i :: 0 <= i < |ds| ==> Fits(ds[i], ms[i])
  }

  /** A request along a chain of devices with the given memories: the first
      device that claims the address serves it; a chain that runs out fails it
      with `data` unchanged. */
  function Dispatch(ds: seq<Device>, ms: seq<Memory>, address: u32, access: Access, data: u32)
    : (r: (Reply, seq<Memory>))
    requires AllFit(ds, ms)
    ensures AllFit(ds, r.1)
    decreases |ds|
  {
    if ds == [] then (Reply(false, data), ms)
    else if Claims(ds[0], address) then
      var (reply, m) := Serve(ds[0], ms[0], address, access, data);
      (reply, [m] + ms[1..])
    else
      assert AllFit(ds[1..], ms[1..]);
      var (reply, rest) := Dispatch(ds[1..], ms[1..], address, access, data);
      (reply, [ms[0]] + rest)
  }

  /** A device that claims the address serves the request. */
  lemma DispatchHere(ds: seq<Device>, ms: seq<Memory>, address: u32, access: Access, data: u32)
    requires AllFit(ds, ms) && |ds| >= 1 && Claims(ds[0], address)
    ensures var served := Serve(ds[0], ms[0], address, access, data);
      Dispatch(ds, ms, address, access, data) == (served.0, [served.1] + ms[1..])
  {
  }

  /** A device that does not claim the address passes the request on. */
  lemma DispatchSkip(ds: seq<Device>, ms: seq<Memory>, address: u32, access: Access, data: u32)
    requires AllFit(ds, ms) && |ds| >= 1 && !Claims(ds[0], address)
    requires AllFit(ds[1..], ms[1..])
    ensures var inner := Dispatch(ds[1..], ms[1..], address, access, data);
      Dispatch(ds, ms, address, access, data) == (inner.0, [ms[0]] + inner.1)
  {
  }

  /** A request no device claims fails, with `data` and every memory unchanged. */
  lemma {:induction false} DispatchUnclaimed(ds: seq<Device>, ms: seq<Memory>, address: u32, access: Access, data: u32)
    requires AllFit(ds, ms) && Route(ds, address) == |ds|
    ensures Dispatch(ds, ms, address, access, data) == (Reply(false, data), ms)
    decreases |ds|
  {
    if ds != [] {
      assert AllFit(ds[1..], ms[1..]);
      DispatchUnclaimed(ds[1..], ms[1..], address, access, data);
      DispatchSkip(ds, ms, address, access, data);
      assert ms == [ms[0]] + ms[1..];
    }
  }

  /** A request is decided by the first device in chain order whose range holds
      the address: the reply and that device's new memory are its Serve. */
  lemma {:induction false} DispatchServes(ds: seq<Device>, ms: seq<Memory>, address: u32, access: Access, data: u32)
    requires AllFit(ds, ms) && Route(ds, address) < |ds|
    ensures var k, out := Route(ds, address), Dispatch(ds, ms, address, access, data);
      (out.0, out.1[k]) == Serve(ds[k], ms[k], address, access, data)
    decreases |ds|
  {
    if !Claims(ds[0], address) {
      assert AllFit(ds[1..], ms[1..]);
      DispatchServes(ds[1..], ms[1..], address, access, data);
      DispatchSkip(ds, ms, address, access, data);
      var k := Route(ds, address);
      assert k == 1 + Route(ds[1..], address);
      assert ms[k] == ms[1..][k - 1] && ds[k] == ds[1..][k - 1];
    }
  }

  /** Every memory but the deciding device's is left as it was. */
  lemma {:induction false} DispatchFrame(ds: seq<Device>, ms: seq<Memory>, address: u32, access: Access, data: u32, i: nat)
    requires AllFit(ds, ms) && i < |ds| && i != Route(ds, address)
    ensures Dispatch(ds, ms, address, access, data).1[i] == ms[i]
    decreases |ds|
  {
    var outer := Dispatch(ds, ms, address, access, data);
    if !Claims(ds[0], address) {
      assert AllFit(ds[1..], ms[1..]);
      DispatchSkip(ds, ms, address, access, data);
      var inner := Dispatch(ds[1..], ms[1..], address, access, data);
      assert outer.1 == [ms[0]] + inner.1;
      if i > 0 {
        DispatchFrame(ds[1..], ms[1..], address, access, data, i - 1);
        assert outer.1[i] == inner.1[i - 1] == ms[1..][i - 1];
      }
    } else {
      DispatchHere(ds, ms, address, access, data);
      assert outer.1[i] == ms[1..][i - 1];
    }
  }

  // ---------------------------------------------------------------- properties

  /** RAM: a write followed by a read at the same address yields the written word. */
  lemma RamWriteThenRead(base: u32, m: Memory, address: u32, w: u32, dummy: u32)
    requires Claims(MainMemory(base), address) && Fits(MainMemory(base), m)
    ensures var (r, m') := Serve(MainMemory(base), m, address, Write, w);
      r == Reply(true, w) && Serve(MainMemory(base), m', address, Read, dummy).0 == Reply(true, w)
  {
    WordRoundTrip(w);
  }

  /** RAM: a read changes nothing; a write changes only the four bytes it covers. */
  lemma RamWriteFrame(base: u32, m: Memory, address: u32, access: Access, w: u32, i: nat)
    requires Claims(MainMemory(base), address) && Fits(MainMemory(base), m)
    requires i < RAM_SIZE && !(address - base <= i < address - base + WORD)
    ensures Serve(MainMemory(base), m, address, access, w).1.bytes[i] == m.bytes[i]
  {
  }

  /** ROM: a read yields 0xDA7ADA7A; a write is refused and leaves `data` and the
      memory as they were. */
  lemma RomReadOnly(base: u32, size: u64, m: Memory, address: u32, data: u32)
    requires Claims(Rom(base, size), address)
    ensures Serve(Rom(base, size), m, address, Read, data) == (Reply(true, ROM_WORD), m)
    ensures Serve(Rom(base, size), m, address, Write, data) == (Reply(false, data), m)
  {
  }

  /** Flash: a misaligned address is refused with nothing changed. */
  lemma FlashMisaligned(m: Memory, address: u32, access: Access, data: u32)
    requires Claims(FlashMemory, address) && address % WORD != 0
    ensures Serve(FlashMemory, m, address, access, data) == (Reply(false, data), m)
  {
  }

  /** Flash: an aligned read yields the last word written there, 0 if none. */
  lemma FlashWriteThenRead(m: Memory, address: u32, w: u32, dummy: u32)
    requires Claims(FlashMemory, address) && address % WORD == 0
    ensures var (r, m') := Serve(FlashMemory, m, address, Write, w);
      r.handled && Serve(FlashMemory, m', address, Read, dummy).0 == Reply(true, w)
  {
  }

  /** Flash: a write leaves the reads at every other address as they were. */
  lemma FlashWriteFrame(m: Memory, address: u32, w: u32, other: u32, dummy: u32)
    requires Claims(FlashMemory, address) && Claims(FlashMemory, other) && other != address
    ensures var m' := Serve(FlashMemory, m, address, Write, w).1;
      Serve(FlashMemory, m', other, Read, dummy).0 == Serve(FlashMemory, m, other, Read, dummy).0
  {
  }

  /** Flash: a word never written reads as 0. */
  lemma FlashZeroed(m: Memory, address: u32, dummy: u32)
    requires Claims(FlashMemory, address) && address % WORD == 0 && address !in m.words
    ensures Serve(FlashMemory, m, address, Read, dummy).0 == Reply(true, 0)
  {
  }

  /** In the chain RAM at 0x1000000, ROM of 16 KB at 0x3000000, flash: 0x120
      belongs to no device, and the addresses written then read land where the
      device ranges say. */
  lemma DemoRouting()
    ensures var devices := [Forwarder, MainMemory(0x100_0000), Rom(0x300_0000, 16 * 1024), FlashMemory];
      && Route(devices, 0x120) == 4
      && Route(devices, 0x100_0020) == 1
      && Route(devices, 0x300_0008) == 2
      && Route(devices, 0x71F0) == 3
  {
    var devices := [Forwarder, MainMemory(0x100_0000), Rom(0x300_0000, 16 * 1024), FlashMemory];
    assert devices[1..][1..][1..][1..] == [];
  }

  // ---------------------------------------------------------------- the handlers

  class BusHandler {
    const device: Device
    /** The `memory` byte array of a main-memory handler, a member held by value;
        empty for the other devices. */
    var ram: seq<u8>
    /** The `memory` word map of a flash handler. */
    var flash: map<u32, u32>
    var next: BusHandler?

    function Stored(): (m: Memory)
      reads this
    {
      Memory(ram, flash)
    }

    /** `BusHandler()`: forwards everything, to nobody yet. */
    constructor ()
      ensures device == Forwarder && next == null
    {
      device := Forwarder;
      ram := [];
      flash := map[];
      next := null;
    }

    /** `MainMemoryBusHandler(start)`: RAM_SIZE bytes at start; what they hold
        before the first write is not promised. */
    constructor MainMemory(start: u32)
      ensures device == Device.MainMemory(start) && next == null
      ensures Fits(device, Stored())
    {
      device := Device.MainMemory(start);
      ram := seq(RAM_SIZE, _ => 0);
      flash := map[];
      next := null;
    }

    /** `ROMBusHandler(base, size)`. */
    constructor Rom(base: u32, size: u64)
      ensures device == Device.Rom(base, size) && next == null
    {
      device := Device.Rom(base, size);
      ram := [];
      flash := map[];
      next := null;
    }

    /** `FlashMemoryBusHandler()`: no word written yet. */
    constructor Flash()
      ensures device == FlashMemory && next == null
      ensures Stored().words == map[]
    {
      device := FlashMemory;
      ram := [];
      flash := map[];
      next := null;
    }

    /** `setNext`: stores the successor and returns it, so set-ups can be chained. */
    method SetNext(n: BusHandler?) returns (r: BusHandler?)
      modifies this
      ensures next == n && r == n
      ensures Stored() == old(Stored())
    {
      next := n;
      r := n;
    }

    /** `handleRequest`: the request walks the chain from this handler, and the
        reply and the memories along the chain are as Dispatch says. */
    method HandleRequest(ghost chain: seq<BusHandler>, address: u32, access: Access, data: u32)
      returns (r: Reply)
      requires Chain(chain) && chain[0] == this
      modifies set h | h in chain
      ensures Chain(chain)
      ensures (r, StoredAll(chain)) == Dispatch(Devices(chain), old(StoredAll(chain)), address, access, data)
      ensures Successors(chain) == old(Successors(chain))
      decreases |chain|, 1
    {
      if Claims(device, address) {
        r := ServeHere(chain, address, access, data);
      } else {
        r := Forward(chain, address, access, data);
      }
    }

    /** A device that claims the address serves the request itself. */
    method ServeHere(ghost chain: seq<BusHandler>, address: u32, access: Access, data: u32)
      returns (r: Reply)
      requires Chain(chain) && chain[0] == this && Claims(device, address)
      modifies this
      ensures Chain(chain)
      ensures (r, StoredAll(chain)) == Dispatch(Devices(chain), old(StoredAll(chain)), address, access, data)
      ensures Successors(chain) == old(Successors(chain))
    {
      ghost var rest := chain[1..];
      ghost var ds, ms, ns := Devices(chain), StoredAll(chain), Successors(chain);
      NotInRest(chain);
      ChainSplit(chain);
      DispatchHere(ds, ms, address, access, data);
      r := ServeClaimed(address, access, data);
      assert StoredAll(rest) == old(StoredAll(rest));
      assert Successors(rest) == old(Successors(rest));
      ChainSplit(chain);
      ChainFrom(chain, ns);
    }

    /** A device that does not claim the address hands it to its successor, or
        fails the request when there is none (`BusHandler::handleRequest`). */
    method Forward(ghost chain: seq<BusHandler>, address: u32, access: Access, data: u32)
      returns (r: Reply)
      requires Chain(chain) && chain[0] == this && !Claims(device, address)
      modifies set h | h in chain
      ensures Chain(chain)
      ensures (r, StoredAll(chain)) == Dispatch(Devices(chain), old(StoredAll(chain)), address, access, data)
      ensures Successors(chain) == old(Successors(chain))
      decreases |chain|, 0
    {
      ghost var rest := chain[1..];
      ghost var ds, ms, ns := Devices(chain), StoredAll(chain), Successors(chain);
      ChainSplit(chain);
      if next == null {
        LastOfChain(chain);
        r := Reply(false, data);
      } else {
        ChainRest(chain);
        NotInRest(chain);
        DispatchSkip(ds, ms, address, access, data);
        r := next.HandleRequest(rest, address, access, data);
        ChainSplit(chain);
        ChainFrom(chain, ns);
      }
    }

    /** The body of an override for a claimed address. */
    method ServeClaimed(address: u32, access: Access, data: u32) returns (r: Reply)
      requires Claims(device, address) && Fits(device, Stored())
      modifies this
      ensures (r, Stored()) == Serve(device, old(Stored()), address, access, data)
      ensures next == old(next)
    {
      match device
      case MainMemory(base) =>
        var off := address - base;
        if access == Read {
          r := Reply(true, ram[off] as int + 0x100 * ram[off + 1] as int + 0x1_0000 * ram[off + 2] as int + 0x100_0000 * ram[off + 3] as int);
          assert ram[off..off + WORD] == [ram[off], ram[off + 1], ram[off + 2], ram[off + 3]];
        } else {
          var b := WordBytes(data);
          ram := ram[off := b[0]][off + 1 := b[1]][off + 2 := b[2]][off + 3 := b[3]];
          r := Reply(true, data);
          assert ram == StoreWord(old(ram), off, data);
        }
      case Rom(_, _) =>
        r := if access == Read then Reply(true, ROM_WORD) else Reply(false, data);
      case FlashMemory =>
        if address % WORD != 0 {
          r := Reply(false, data);
        } else if access == Write {
          flash := flash[address := data];
          r := Reply(true, data);
        } else {
          r := Reply(true, if address in flash then flash[address] else 0);
        }
    }
  }

  /** The devices along a chain. */
  function Devices(chain: seq<BusHandler>): (ds: seq<Device>)
    ensures |ds| == |chain|
    ensures forall i :: 0 <= i < |chain| ==> ds[i] == chain[i].device
  {
    if chain == [] then [] else [chain[0].device] + Devices(chain[1..])
  }

  /** The memories along a chain. */
  ghost function StoredAll(chain: seq<BusHandler>): (ms: seq<Memory>)
    reads set h | h in chain
    ensures |ms| == |chain|
    ensures forall i :: 0 <= i < |chain| ==> ms[i] == chain[i].Stored()
  {
    if chain == [] then [] else [chain[0].Stored()] + StoredAll(chain[1..])
  }

  /** The `next` field of each handler along a chain. */
  ghost function Successors(chain: seq<BusHandler>): (ns: seq<BusHandler?>)
    reads set h | h in chain
    ensures |ns| == |chain|
    ensures forall i :: 0 <= i < |chain| ==> ns[i] == chain[i].next
  {
    if chain == [] then [] else [chain[0].next] + Successors(chain[1..])
  }

  /** Handlers linked through `next`, each appearing once, ending at a handler
      with no successor, each holding a memory that fits its device. */
  ghost predicate Chain(chain: seq<BusHandler>)
    reads set h | h in chain
  {
    Linked(chain, Successors(chain)) && AllFit(Devices(chain), StoredAll(chain))
  }

  /** Each handler's successor is the next in the chain, the last has none, and
      no handler appears twice. */
  predicate Linked(chain: seq<BusHandler>, ns: seq<BusHandler?>)
  {
    && |chain| >= 1 && |ns| == |chain|
    && (forall i :: 0 <= i < |chain| - 1 ==> ns[i] == chain[i + 1])
    && ns[|chain| - 1] == null
    && (forall i, j :: 0 <= i < j < |chain| ==> chain[i] != chain[j])
  }

  /** What follows the head of a chain is a chain. */
  lemma ChainRest(chain: seq<BusHandler>)
    requires Chain(chain) && |chain| > 1
    ensures Chain(chain[1..])
  {
    ChainSplit(chain);
    LinkedRest(chain, Successors(chain));
    AllFitRest(Devices(chain), StoredAll(chain));
  }

  /** The links after the head are those of the rest. */
  lemma LinkedRest(chain: seq<BusHandler>, ns: seq<BusHandler?>)
    requires Linked(chain, ns) && |chain| > 1
    ensures Linked(chain[1..], ns[1..])
  {
    var rest := chain[1..];
    forall i, j | 0 <= i < j < |rest| ensures rest[i] != rest[j] {
      assert rest[i] == chain[i + 1] && rest[j] == chain[j + 1];
    }
    forall i | 0 <= i < |rest| - 1 ensures ns[1..][i] == rest[i + 1] {
      assert ns[1..][i] == ns[i + 1] && rest[i + 1] == chain[i + 2];
    }
  }

  /** Memories that fit their devices still do without the first pair. */
  lemma AllFitRest(ds: seq<Device>, ms: seq<Memory>)
    requires AllFit(ds, ms) && |ds| > 0
    ensures AllFit(ds[1..], ms[1..])
  {
    forall i | 0 <= i < |ds| - 1 ensures Fits(ds[1..][i], ms[1..][i]) {
      assert ds[1..][i] == ds[i + 1] && ms[1..][i] == ms[i + 1];
    }
  }

  /** A chain's devices, memories and successors are its head's followed by
      the rest's. */
  lemma ChainSplit(chain: seq<BusHandler>)
    requires |chain| >= 1
    ensures Devices(chain) == [chain[0].device] + Devices(chain[1..])
    ensures StoredAll(chain) == [chain[0].Stored()] + StoredAll(chain[1..])
    ensures Successors(chain) == [chain[0].next] + Successors(chain[1..])
  {
  }

  /** A chain is still a chain when its successors are as before and its
      memories still fit. */
  lemma ChainFrom(chain: seq<BusHandler>, ns: seq<BusHandler?>)
    requires Linked(chain, ns) && Successors(chain) == ns
    requires AllFit(Devices(chain), StoredAll(chain))
    ensures Chain(chain)
  {
  }

  /** A chain whose head has no successor is that head alone. */
  lemma LastOfChain(chain: seq<BusHandler>)
    requires Chain(chain) && chain[0].next == null
    ensures |chain| == 1
  {
    assert Successors(chain)[0] == null;
  }

  /** The head of a chain is none of the later handlers. */
  lemma NotInRest(chain: seq<BusHandler>)
    requires Chain(chain)
    ensures chain[0] !in chain[1..]
  {
    forall i | 1 <= i < |chain| ensures chain[i] != chain[0] { }
  }
}

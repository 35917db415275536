/** The desktop computer and its builder of Creational/builder.cpp.

    The computer's PCI-E slot table is a fixed array of five optional device
    names updated in place, and the builder's setters each overwrite one field
    of the computer it holds, so both are classes.  The slot operations are
    proved against the value functions AddDevice and RemoveDevice, and the
    slot rules are proved about those. */
module PcBuilder {
  import opened Common

  const PCIE_SLOTS: nat := 5

  datatype CoolingType = Passive | Fan | Liquid

  /** `addPcieDevice` on a slot table: the new table and whether the device went in. */
  datatype Added = Added(slots: seq<Option<string>>, ok: bool)

  /** A slot number below five that is empty takes the device; an occupied slot
      or a number past the table changes nothing and reports failure. */
  function AddDevice(slots: seq<Option<string>>, name: string, slot: nat): (r: Added)
    ensures |r.slots| == |slots|
    ensures r.ok <==> slot < PCIE_SLOTS && slot < |slots| && slots[slot] == None
    ensures r.ok ==> r.slots[slot] == Some(name)
    ensures forall k :: 0 <= k < |slots| && k != slot ==> r.slots[k] == slots[k]
    ensures !r.ok ==> r.slots == slots
  {
    if slot < PCIE_SLOTS && slot < |slots| && slots[slot] == None then Added(slots[slot := Some(name)], true)
    else Added(slots, false)
  }

  /** `removePcieDevice`: empties a slot below five whatever name it is given;
      any other slot number changes nothing. */
  function RemoveDevice(slots: seq<Option<string>>, name: string, slot: nat): (r: seq<Option<string>>)
    ensures |r| == |slots|
    ensures slot < PCIE_SLOTS && slot < |slots| ==> r[slot] == None
    ensures forall k :: 0 <= k < |slots| && k != slot ==> r[k] == slots[k]
  {
    if slot < PCIE_SLOTS && slot < |slots| then slots[slot := None] else slots
  }

  /** Removing a device just added restores the table from before. */
  lemma RemoveUndoesAdd(slots: seq<Option<string>>, name: string, other: string, slot: nat)
    requires AddDevice(slots, name, slot).ok
    ensures RemoveDevice(AddDevice(slots, name, slot).slots, other, slot) == slots
  {
    assert RemoveDevice(AddDevice(slots, name, slot).slots, other, slot) == slots[slot := None];
  }

  /** A second device for the same slot is refused and the first one stays,
      which is what two `withPciE` calls on one slot leave behind. */
  lemma FirstDeviceStays(slots: seq<Option<string>>, first: string, second: string, slot: nat)
    requires AddDevice(slots, first, slot).ok
    ensures var again := AddDevice(AddDevice(slots, first, slot).slots, second, slot);
      !again.ok && again.slots[slot] == Some(first)
  {
  }

  /** The thread count printed by `printSpecs`: twice the cores with
      hyper-threading, in 32-bit unsigned arithmetic, else the cores. */
  function ThreadCount(cores: u32, hyperThreading: bool): (t: u32)
    ensures !hyperThreading ==> t == cores
    ensures hyperThreading && 2 * cores < TWO_32 ==> t == 2 * cores
    ensures hyperThreading && 2 * cores >= TWO_32 ==> t + TWO_32 == 2 * cores
  {
    if hyperThreading then (cores * 2) % TWO_32 else cores
  }

  /** From 2^31 cores on, the doubled count wraps below the core count. */
  lemma ThreadCountWraps(cores: u32)
    requires cores >= TWO_32 / 2
    ensures ThreadCount(cores, true) < cores
  {
  }

  /** Everything `printSpecs` shows.  `cooling` is None while no cooling has been
      chosen: the C++ field is left uninitialised until then. */
  datatype Specs = Specs(
    caseModel: string,
    cooling: Option<CoolingType>,
    ramSizeInGB: u32,
    cpuCoreCount: u32,
    hyperThreading: bool,
    cpuFreqInMHz: u32,
    pcieSlots: seq<Option<string>>)

  /** A default-constructed computer: 1 GB, one core without hyper-threading,
      1000 MHz, every slot empty. */
  function DefaultSpecs(): (s: Specs)
  {
    Specs("", None, 1, 1, false, 1000, [None, None, None, None, None])
  }

  class DesktopComputer {
    var caseModel: string
    var cooling: Option<CoolingType>
    var ramSizeInGB: u32
    var cpuCoreCount: u32
    var hyperThreading: bool
    var cpuFreqInMHz: u32
    /** `pcieSlots`, a `std::array` of five optional names. */
    const pcieSlots: array<Option<string>>

    predicate Valid()
      reads this
    {
      pcieSlots.Length == PCIE_SLOTS
    }

    function State(): (s: Specs)
      reads this, pcieSlots
    {
      Specs(caseModel, cooling, ramSizeInGB, cpuCoreCount, hyperThreading, cpuFreqInMHz, pcieSlots[..])
    }

    constructor ()
      ensures Valid() && fresh(pcieSlots) && State() == DefaultSpecs()
    {
      caseModel := "";
      cooling := None;
      ramSizeInGB := 1;
      cpuCoreCount := 1;
      hyperThreading := false;
      cpuFreqInMHz := 1000;
      pcieSlots := new Option<string>[PCIE_SLOTS](_ => None);
    }

    /** The defaulted move constructor: a separate computer with the same
        specifications and its own slot array. */
    constructor Moved(other: DesktopComputer)
      requires other.Valid()
      ensures Valid() && fresh(pcieSlots) && State() == other.State()
    {
      caseModel := other.caseModel;
      cooling := other.cooling;
      ramSizeInGB := other.ramSizeInGB;
      cpuCoreCount := other.cpuCoreCount;
      hyperThreading := other.hyperThreading;
      cpuFreqInMHz := other.cpuFreqInMHz;
      pcieSlots := new Option<string>[PCIE_SLOTS](i reads other.pcieSlots =>
        if 0 <= i < other.pcieSlots.Length then other.pcieSlots[i] else None);
      new;
      assert pcieSlots[..] == other.pcieSlots[..];
    }

    method AddPcieDevice(name: string, slot: nat) returns (ok: bool)
      requires Valid()
      modifies pcieSlots
      ensures Added(pcieSlots[..], ok) == AddDevice(old(pcieSlots[..]), name, slot)
    {
      if slot < PCIE_SLOTS {
        if pcieSlots[slot].Some? {
          return false;
        } else {
          pcieSlots[slot] := Some(name);
          return true;
        }
      }
      return false;
    }

    method RemovePcieDevice(name: string, slot: nat)
      requires Valid()
      modifies pcieSlots
      ensures pcieSlots[..] == RemoveDevice(old(pcieSlots[..]), name, slot)
    {
      if slot < PCIE_SLOTS {
        pcieSlots[slot] := None;
      }
    }

    /** `threadCount` in `printSpecs`. */
    function Threads(): u32
      reads this
    {
      ThreadCount(cpuCoreCount, hyperThreading)
    }
  }

  /** The builder: each setter overwrites one field of the computer it holds and
      returns the builder itself, so calls chain. */
  class DesktopComputerBuilder {
    const pc: DesktopComputer

    predicate Valid()
      reads this, pc
    {
      pc.Valid()
    }

    constructor ()
      ensures Valid() && fresh(pc) && fresh(pc.pcieSlots) && pc.State() == DefaultSpecs()
    {
      pc := new DesktopComputer();
    }

    /** `operator DesktopComputer()`: moves the computer built so far into a
        new one, which later setter calls on the builder do not reach. */
    method Build() returns (c: DesktopComputer)
      requires Valid()
      ensures fresh(c) && fresh(c.pcieSlots) && c.Valid() && c.State() == pc.State()
    {
      c := new DesktopComputer.Moved(pc);
    }

    method WithCase(caseModel: string) returns (b: DesktopComputerBuilder)
      modifies pc
      ensures b == this && pc.State() == old(pc.State()).(caseModel := caseModel)
    {
      pc.caseModel := caseModel;
      b := this;
    }

    method CoolUsing(cooling: CoolingType) returns (b: DesktopComputerBuilder)
      modifies pc
      ensures b == this && pc.State() == old(pc.State()).(cooling := Some(cooling))
    {
      pc.cooling := Some(cooling);
      b := this;
    }

    method WithMemorySize(sizeGB: u32) returns (b: DesktopComputerBuilder)
      modifies pc
      ensures b == this && pc.State() == old(pc.State()).(ramSizeInGB := sizeGB)
    {
      pc.ramSizeInGB := sizeGB;
      b := this;
    }

    method WithCoreCount(n: u32) returns (b: DesktopComputerBuilder)
      modifies pc
      ensures b == this && pc.State() == old(pc.State()).(cpuCoreCount := n)
    {
      pc.cpuCoreCount := n;
      b := this;
    }

    method WithHyperThreadingCpu() returns (b: DesktopComputerBuilder)
      modifies pc
      ensures b == this && pc.State() == old(pc.State()).(hyperThreading := true)
    {
      pc.hyperThreading := true;
      b := this;
    }

    method WithCpuFreq(freqMHz: u32) returns (b: DesktopComputerBuilder)
      modifies pc
      ensures b == this && pc.State() == old(pc.State()).(cpuFreqInMHz := freqMHz)
    {
      pc.cpuFreqInMHz := freqMHz;
      b := this;
    }

    /** `withPciE`: the outcome of `addPcieDevice` is dropped. */
    method WithPciE(name: string, slot: nat) returns (b: DesktopComputerBuilder)
      requires Valid()
      modifies pc.pcieSlots
      ensures b == this && Valid()
      ensures pc.State() == old(pc.State()).(pcieSlots := AddDevice(old(pc.pcieSlots[..]), name, slot).slots)
    {
      var _ := pc.AddPcieDevice(name, slot);
      b := this;
    }
  }

  /** A computer already built is a separate object: setting up the builder
      afterwards leaves it as it was. */
  method BuildThenChangeCase(builder: DesktopComputerBuilder, caseModel: string) returns (c: DesktopComputer)
    requires builder.Valid()
    modifies builder.pc
    ensures fresh(c) && c.State() == old(builder.pc.State())
    ensures builder.pc.State() == old(builder.pc.State()).(caseModel := caseModel)
  {
    c := builder.Build();
    var same := builder.WithCase(caseModel);
  }
}

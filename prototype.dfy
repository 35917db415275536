/** The CPU-core prototype of Creational/Prototype/prototype.cpp.

    A `CPUCore64bit` has a fixed instruction set and register-width flag and a
    frequency that `setFrequency` changes in place, so it is a class; `clone`
    makes a fresh object with the same three values.  The descriptions are
    pure functions of those values. */
module CpuPrototype {
  import opened Common
  import opened Decimal

  /** The text `CPUCore::describe` writes before the frequency. */
  function Head(isa: string): string
  {
    "ISA: " + isa + " core running at "
  }

  /** `CPUCore::describe`: the instruction set and the frequency in decimal. */
  function CoreDescription(isa: string, freqMHz: u32): string
  {
    Head(isa) + NatToString(freqMHz) + " MHz"
  }

  /** The register-width note `CPUCore64bit::describe` appends. */
  function WidthNote(support32bit: bool): string
  {
    if support32bit then " (64/32 bit)" else " (64 bit only)"
  }

  /** `CPUCore64bit::describe`. */
  function Description(isa: string, freqMHz: u32, support32bit: bool): string
  {
    CoreDescription(isa, freqMHz) + WidthNote(support32bit)
  }

  /** The two width notes differ in length, so the description tells the widths apart. */
  lemma DescriptionShowsWidth(isa: string, freqMHz: u32)
    ensures Description(isa, freqMHz, true) != Description(isa, freqMHz, false)
  {
    assert |Description(isa, freqMHz, true)| + 2 == |Description(isa, freqMHz, false)|;
  }

  /** A common prefix and suffix can be taken off both sides of an equation. */
  lemma CancelAround(head: string, x: string, y: string, unit: string, note: string)
    requires head + x + unit + note == head + y + unit + note
    ensures x == y
  {
    var tail := unit + note;
    assert head + x + unit + note == head + (x + tail);
    assert head + y + unit + note == head + (y + tail);
    assert x == (head + (x + tail))[|head|..|head| + |x|];
    assert y == (head + (y + tail))[|head|..|head| + |y|];
  }

  /** Two cores of the same instruction set and width with the same description
      run at the same frequency: the description shows the frequency exactly. */
  lemma DescriptionShowsFrequency(isa: string, f1: u32, f2: u32, support32bit: bool)
    requires Description(isa, f1, support32bit) == Description(isa, f2, support32bit)
    ensures f1 == f2
  {
    CancelAround(Head(isa), NatToString(f1), NatToString(f2), " MHz", WidthNote(support32bit));
    DigitsValueOfNatToString(f1);
    DigitsValueOfNatToString(f2);
  }

  class CpuCore64 {
    const isa: string
    var freqMHz: u32
    const support32bit: bool

    /** The expensive constructor. */
    constructor (isa: string, freqMHz: u32, support32bit: bool)
      ensures this.isa == isa && this.freqMHz == freqMHz && this.support32bit == support32bit
    {
      this.isa := isa;
      this.freqMHz := freqMHz;
      this.support32bit := support32bit;
    }

    method SetFrequency(freqMHz: u32)
      modifies this
      ensures GetFrequency() == freqMHz
    {
      this.freqMHz := freqMHz;
    }

    function GetFrequency(): u32
      reads this
    {
      freqMHz
    }

    function Describe(): string
      reads this
    {
      Description(isa, freqMHz, support32bit)
    }

    /** `clone`: a new object, by the copy constructor, with the same three values. */
    method Clone() returns (c: CpuCore64)
      ensures fresh(c)
      ensures c.isa == isa && c.freqMHz == freqMHz && c.support32bit == support32bit
      ensures c.Describe() == Describe()
    {
      c := new CpuCore64(isa, freqMHz, support32bit);
    }
  }

  /** Cloning a prototype and retuning the clone leaves the prototype as it was. */
  method CloneAndTune(prototype: CpuCore64, freqMHz: u32) returns (c: CpuCore64)
    ensures fresh(c) && c.GetFrequency() == freqMHz
    ensures c.isa == prototype.isa && c.support32bit == prototype.support32bit
    ensures prototype.GetFrequency() == old(prototype.GetFrequency())
    ensures prototype.Describe() == old(prototype.Describe())
  {
    c := prototype.Clone();
    c.SetFrequency(freqMHz);
  }
}

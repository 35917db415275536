# Design-pattern demos, modelled and verified in Dafny

This project models the parts of the DesignPatternsCPP demos that carry real
logic, and proves what each one promises. There is one Dafny module per C++
source file:

| module | file | what it is |
|---|---|---|
| `BankCommand` | Behavioral/Command/command.cpp | a bank account with a guarded withdrawal, and a command with a one-shot undo |
| `MementoPlayer` | Behavioral/memento.cpp | a game player with bounded counters and undo/redo snapshot stacks |
| `GrowableVector` | Behavioral/Iterator/Vector.h | a growable array with 1.5x growth, and its iterator |
| `MemoryBus` | Behavioral/Chain_of_responsibility/chain_of_responsibility.cpp | a chain of bus handlers (RAM, ROM, flash) that decode addresses |
| `IPv4` | Behavioral/Mediator/IPv4Address.h | the 32-bit IPv4 address, parsed from and formatted as dotted-decimal text |
| `Mediator` | Behavioral/Mediator/mediator.cpp | clients and a router that assigns them addresses and forwards packets |
| `PcBuilder` | Creational/builder.cpp | a desktop computer with PCIe slots, and its fluent builder |
| `WeatherObserver` | Behavioral/Observer/observer.cpp | a weather provider, its observer list, and a smart-home controller |
| `PowerAdapter` | Structural/Adapter/adapter.cpp | home and industrial sockets, the adapter between them, and a phone charger |
| `IceCreams` | Structural/Decorator/IceCream.h | simple and multi-bowl ice-creams and their descriptions |
| `DynamicDecorator` | Structural/Decorator/DynamicDecorator.h | topping and cone decorators that hold a reference to what they wrap |
| `StaticDecorator` | Structural/Decorator/StaticDecorator.h | topping and cone decorators that inherit from what they decorate |
| `FileTree` | Structural/Composite/composite.cpp | files and directories, and the indented tree they print |
| `CpuPrototype` | Creational/Prototype/prototype.cpp | a CPU core that is cloned and then retuned |

`Common` holds the fixed-width integer types and the `Option` and `Result`
wrappers. `Decimal` holds decimal digit strings, which the IPv4 formatter and
the CPU description both write.

Objects that the C++ code updates in place are Dafny classes: the account,
the command, the player, the vector, the bus handlers, the router and its
clients, the computer and its builder, the weather provider and its
observers, the charger, the ice-creams and the file-tree nodes. Each method
is proved against a pure transition function on the object's state. For
example, `Player.Fight` ensures `State() == Act(old(State()), ...)`. The
lemmas then state what the C++ code promises about those functions: undo
followed by redo restores the state, the counters stay in bounds, a request
reaches the first handler that claims its address, and so on. Console output
becomes returned values (`Describe`, `Tree`, `charged`) or a log of
delivered packets.

command.cpp holds one command class, which acts on one account.

## Model

| member | source | states |
|---|---|---|
| BankCommand.DepositTo | Behavioral/Command/command.cpp:18-21 | the balance grows by the amount, wrapping modulo 2^32 when the sum overflows |
| BankCommand.WithdrawFrom | Behavioral/Command/command.cpp:23-31 | a withdrawal succeeds exactly when balance >= amount, and then lowers the balance by the amount; otherwise the balance is unchanged |
| BankCommand.BankAccount.constructor | Behavioral/Command/command.cpp:8-34 | a new account has its name and a balance of 0 |
| BankCommand.BankAccount.Deposit | Behavioral/Command/command.cpp:18-21 | the new balance is DepositTo of the old one |
| BankCommand.BankAccount.Withdraw | Behavioral/Command/command.cpp:23-31 | the outcome and the new balance are WithdrawFrom of the old balance |
| BankCommand.BankAccountCommand.constructor | Behavioral/Command/command.cpp:52-56 | a new command is bound to its account, action and amount, with the recorded outcome true and not undone |
| BankCommand.CallEffect | Behavioral/Command/command.cpp:58-73 | a call re-applies the action each time; a withdrawal records its outcome and a deposit leaves the record alone |
| BankCommand.UndoEffect | Behavioral/Command/command.cpp:75-96 | undo does nothing once undone; otherwise it marks the command undone and applies the inverse action |
| BankCommand.BankAccountCommand.Call | Behavioral/Command/command.cpp:58-73 | changes only the command and its own account, as CallEffect says |
| BankCommand.BankAccountCommand.Undo | Behavioral/Command/command.cpp:75-96 | changes only the command and its own account, as UndoEffect says |
| BankCommand.UndoIsIdempotent | Behavioral/Command/command.cpp:77-80 | a second undo changes nothing |
| BankCommand.UndoWithdrawRestores | Behavioral/Command/command.cpp:67-90 | undo right after a withdrawal call restores the earlier balance, whether the withdrawal succeeded or failed |
| BankCommand.UndoDepositRestores | Behavioral/Command/command.cpp:63-85 | undo right after a deposit that did not overflow restores the earlier balance |
| BankCommand.UndoDepositWithoutFunds | Behavioral/Command/command.cpp:80-85 | when the balance is below the amount, undoing a deposit moves no money but still uses up the one undo |
| BankCommand.UndoUncalledWithdrawDeposits | Behavioral/Command/command.cpp:87-101 | undoing a withdrawal command that was never called deposits its amount |
| BankCommand.UndoWrappedDepositFails | Behavioral/Command/command.cpp:83-85 | a deposit that wraps the 32-bit balance cannot be undone |
| MementoPlayer.WorkoutEffect | Behavioral/memento.cpp:42-47 | attack power rises by one below 100 and nothing else changes |
| MementoPlayer.TakeMedicineEffect | Behavioral/memento.cpp:49-54 | health rises by one below 100 and nothing else changes |
| MementoPlayer.FightEffect | Behavioral/memento.cpp:56-74 | a win raises the level, capped at 15; a loss lowers it, floored at 1, and costs 5 health, floored at 0 |
| MementoPlayer.Save | Behavioral/memento.cpp:106-111 | pushes the current counters and empties the redo stack |
| MementoPlayer.Act | Behavioral/memento.cpp:106-111 | every action pushes exactly one snapshot of the counters before it and empties the redo stack |
| MementoPlayer.UndoEffect | Behavioral/memento.cpp:14-26 | undo with no history changes nothing; otherwise it restores the top snapshot and pushes the current counters for redo |
| MementoPlayer.RedoEffect | Behavioral/memento.cpp:28-40 | redo with nothing undone changes nothing; otherwise it is the mirror image of undo |
| MementoPlayer.StepValid | Behavioral/memento.cpp:42-93 | each operation keeps health <= 100, power <= 100 and 1 <= level <= 15, in the counters and in every snapshot |
| MementoPlayer.RunValid | Behavioral/memento.cpp:42-93 | any sequence of operations keeps those bounds |
| MementoPlayer.ReachableValid | Behavioral/memento.cpp:91-93 | from a new player, any sequence of operations keeps those bounds |
| MementoPlayer.RedoUndo | Behavioral/memento.cpp:14-40 | redo right after an effective undo gives back the state before the undo |
| MementoPlayer.UndoRedo | Behavioral/memento.cpp:14-40 | undo right after an effective redo gives back the state before the redo |
| MementoPlayer.SnapshotsKept | Behavioral/memento.cpp:22-39 | undo and redo move snapshots between the stacks and keep their total |
| MementoPlayer.NoRedoAfterAction | Behavioral/memento.cpp:109-110 | after any action there is nothing to redo |
| MementoPlayer.UndoAction | Behavioral/memento.cpp:14-26 | undoing an action restores the counters from before it |
| MementoPlayer.Player.constructor | Behavioral/memento.cpp:84-93 | a new player has health 100, power 10, level 1 and empty stacks |
| MementoPlayer.Player.Undo | Behavioral/memento.cpp:14-26 | the new state is UndoEffect of the old one |
| MementoPlayer.Player.Redo | Behavioral/memento.cpp:28-40 | the new state is RedoEffect of the old one |
| MementoPlayer.Player.Workout | Behavioral/memento.cpp:42-47 | the new state is Act of the old one with WorkoutEffect |
| MementoPlayer.Player.TakeMedicine | Behavioral/memento.cpp:49-54 | the new state is Act of the old one with TakeMedicineEffect |
| MementoPlayer.Player.Fight | Behavioral/memento.cpp:56-74 | the new state is Act of the old one with FightEffect |
| MementoPlayer.Player.SaveMemento | Behavioral/memento.cpp:106-111 | the popping loop ends with the snapshot pushed and the redo stack empty |
| MementoPlayer.Player.RestoreFromMemento | Behavioral/memento.cpp:113-118 | the counters become the snapshot's and the stacks are untouched |
| GrowableVector.GrowthAsWritten | Behavioral/Iterator/Vector.h:111-113 | capacity + capacity / 2 grows the capacity only when it is at least 2 |
| GrowableVector.GrowthAsWrittenStalls | Behavioral/Iterator/Vector.h:93-114 | at capacity 0 or 1, the growth step leaves the capacity where it was |
| GrowableVector.Growth | Behavioral/Iterator/Vector.h:111-113 | the corrected growth always grows the capacity, and equals the source's from 2 up |
| GrowableVector.GrowthMakesRoom | Behavioral/Iterator/Vector.h:111-114 | after growing a full vector, the next element fits |
| GrowableVector.Vector.Elements | Behavioral/Iterator/Vector.h:177-179 | the contents are the first size slots of the buffer |
| GrowableVector.Vector.constructor | Behavioral/Iterator/Vector.h:82-85 | a new vector is empty with capacity 2 |
| GrowableVector.Vector.FromList | Behavioral/Iterator/Vector.h:93-98 | a vector from a list holds the list's elements in order, with capacity equal to its length |
| GrowableVector.Vector.Allocate | Behavioral/Iterator/Vector.h:181-199 | keeps the first min(size, n) elements, truncates the size to n and sets the capacity to n |
| GrowableVector.Vector.PushBack | Behavioral/Iterator/Vector.h:109-123 | appends the element, keeps the earlier ones, and grows the capacity only when full |
| GrowableVector.Vector.EmplaceBack | Behavioral/Iterator/Vector.h:125-133 | as PushBack, and returns the element placed |
| GrowableVector.Vector.PopBack | Behavioral/Iterator/Vector.h:135-142 | does nothing on an empty vector; otherwise drops the last element and keeps the rest |
| GrowableVector.Vector.Clear | Behavioral/Iterator/Vector.h:159-164 | empties the vector and keeps its capacity and buffer |
| GrowableVector.Vector.Size | Behavioral/Iterator/Vector.h:144-147 | the size is the number of elements |
| GrowableVector.Vector.Get | Behavioral/Iterator/Vector.h:149-157 | indexing reads element i |
| GrowableVector.Vector.Set | Behavioral/Iterator/Vector.h:149-157 | writing through the index replaces element i only |
| GrowableVector.Vector.Begin | Behavioral/Iterator/Vector.h:166-169 | an iterator at position 0 of the buffer |
| GrowableVector.Vector.End | Behavioral/Iterator/Vector.h:171-174 | an iterator at position size of the buffer |
| GrowableVector.VectorIterator.constructor | Behavioral/Iterator/Vector.h:16-18 | an iterator over the given buffer at the given position |
| GrowableVector.VectorIterator.Increment | Behavioral/Iterator/Vector.h:20-25 | prefix ++ moves one position forward |
| GrowableVector.VectorIterator.PostIncrement | Behavioral/Iterator/Vector.h:26-31 | postfix ++ moves forward and returns a copy at the old position |
| GrowableVector.VectorIterator.Decrement | Behavioral/Iterator/Vector.h:33-38 | prefix -- moves one position back |
| GrowableVector.VectorIterator.PostDecrement | Behavioral/Iterator/Vector.h:39-44 | postfix -- moves back and returns a copy at the old position |
| GrowableVector.VectorIterator.At | Behavioral/Iterator/Vector.h:46-49 | it[i] is the element at position + i |
| GrowableVector.VectorIterator.Deref | Behavioral/Iterator/Vector.h:56-59 | *it is it[0] |
| GrowableVector.VectorIterator.Equals | Behavioral/Iterator/Vector.h:61-64 | iterators are equal exactly when they have the same buffer and position |
| GrowableVector.Traverse | Behavioral/Iterator/Vector.h:20-31 | stepping from begin() to end() with ++ visits the elements in order |
| MemoryBus.WordRoundTrip | Behavioral/Chain_of_responsibility/chain_of_responsibility.cpp:56-61 | a word copied into RAM bytes and copied back is the same word |
| MemoryBus.WordBytes | Behavioral/Chain_of_responsibility/chain_of_responsibility.cpp:58 | a word occupies four bytes of RAM |
| MemoryBus.StoreWord | Behavioral/Chain_of_responsibility/chain_of_responsibility.cpp:58 | a RAM write puts the word's four bytes at the offset and changes no other byte |
| MemoryBus.Claims | Behavioral/Chain_of_responsibility/chain_of_responsibility.cpp:53-126 | computes each handler's range check: RAM from base to base + RAM_SIZE - 4, ROM from base to base + size - 4 in 64-bit arithmetic, flash from 0x4000 to 0x800000 - 4, the base handler nothing |
| MemoryBus.Serve | Behavioral/Chain_of_responsibility/chain_of_responsibility.cpp:53-126 | computes what a claiming handler does: RAM copies a word in or out, ROM reads 0xDA7ADA7A and refuses writes, flash refuses misaligned addresses, stores writes and reads 0 where nothing was written |
| MemoryBus.Route | Behavioral/Chain_of_responsibility/chain_of_responsibility.cpp:28-126 | the first device in chain order whose range contains the address, or the end of the chain |
| MemoryBus.Dispatch | Behavioral/Chain_of_responsibility/chain_of_responsibility.cpp:28-126 | serving a request keeps every memory fitting its device |
| MemoryBus.DispatchHere | Behavioral/Chain_of_responsibility/chain_of_responsibility.cpp:53-126 | a handler whose range contains the address serves the request itself and does not forward it |
| MemoryBus.DispatchSkip | Behavioral/Chain_of_responsibility/chain_of_responsibility.cpp:28-35 | a handler that does not claim the address passes the request on unchanged |
| MemoryBus.DispatchUnclaimed | Behavioral/Chain_of_responsibility/chain_of_responsibility.cpp:30-34 | an address that no handler claims fails with data unchanged and no memory touched |
| MemoryBus.DispatchServes | Behavioral/Chain_of_responsibility/chain_of_responsibility.cpp:28-126 | a request is decided by the first handler whose range contains the address |
| MemoryBus.DispatchFrame | Behavioral/Chain_of_responsibility/chain_of_responsibility.cpp:53-126 | only the memory of the handler that serves the request can change |
| MemoryBus.RamWriteThenRead | Behavioral/Chain_of_responsibility/chain_of_responsibility.cpp:53-64 | a RAM write succeeds, and a read at the same address returns the word written |
| MemoryBus.RamWriteFrame | Behavioral/Chain_of_responsibility/chain_of_responsibility.cpp:56-61 | a RAM request changes no byte outside the four at the address |
| MemoryBus.RomReadOnly | Behavioral/Chain_of_responsibility/chain_of_responsibility.cpp:76-89 | a ROM read returns 0xDA7ADA7A; a ROM write fails, is not forwarded and leaves data unchanged |
| MemoryBus.FlashMisaligned | Behavioral/Chain_of_responsibility/chain_of_responsibility.cpp:107-110 | a misaligned flash address fails and is not forwarded |
| MemoryBus.FlashWriteThenRead | Behavioral/Chain_of_responsibility/chain_of_responsibility.cpp:111-123 | an aligned flash write is read back |
| MemoryBus.FlashWriteFrame | Behavioral/Chain_of_responsibility/chain_of_responsibility.cpp:114-120 | a flash write changes what reads return at no other address |
| MemoryBus.FlashZeroed | Behavioral/Chain_of_responsibility/chain_of_responsibility.cpp:117-120 | an aligned flash address absent from the store, in any store, reads 0 |
| MemoryBus.DemoRouting | Behavioral/Chain_of_responsibility/chain_of_responsibility.cpp:135-140 | in the demo chain, RAM, ROM and flash addresses go to their own handler and an unclaimed one fails |
| MemoryBus.BusHandler.constructor | Behavioral/Chain_of_responsibility/chain_of_responsibility.cpp:15-20 | a base handler has no successor |
| MemoryBus.BusHandler.MainMemory | Behavioral/Chain_of_responsibility/chain_of_responsibility.cpp:45 | a RAM handler at the given base with no successor |
| MemoryBus.BusHandler.Rom | Behavioral/Chain_of_responsibility/chain_of_responsibility.cpp:73 | a ROM handler for the given range with no successor |
| MemoryBus.BusHandler.Flash | Behavioral/Chain_of_responsibility/chain_of_responsibility.cpp:100-101 | a flash handler with an empty store and no successor |
| MemoryBus.BusHandler.SetNext | Behavioral/Chain_of_responsibility/chain_of_responsibility.cpp:22-26 | stores the successor and returns it, and changes no memory |
| MemoryBus.BusHandler.HandleRequest | Behavioral/Chain_of_responsibility/chain_of_responsibility.cpp:28-126 | the reply and the new memories along the chain are Dispatch of the old ones, and the links are unchanged |
| MemoryBus.BusHandler.ServeHere | Behavioral/Chain_of_responsibility/chain_of_responsibility.cpp:53-126 | a handler that claims the address serves the request as Dispatch says and keeps every link |
| MemoryBus.BusHandler.Forward | Behavioral/Chain_of_responsibility/chain_of_responsibility.cpp:28-35 | a handler that does not claim the address hands the request down the chain, as Dispatch says, and keeps every link |
| MemoryBus.BusHandler.ServeClaimed | Behavioral/Chain_of_responsibility/chain_of_responsibility.cpp:55-123 | a handler serving an address it claims does what Serve says, and keeps its successor |
| MemoryBus.ChainRest | Behavioral/Chain_of_responsibility/chain_of_responsibility.cpp:135-140 | what follows the head of a chain is a chain |
| IPv4.FindDot | Behavioral/Mediator/IPv4Address.h:18 | the first '.' at or after the start, or none |
| IPv4.Utf8Width | Behavioral/Mediator/IPv4Address.h:20 | a character takes 1 to 4 bytes of the string, and 1 exactly when it is ASCII |
| IPv4.ByteLength | Behavioral/Mediator/IPv4Address.h:20 | `length()` counts bytes: never fewer than the characters, and as many exactly when all are ASCII |
| IPv4.Split | Behavioral/Mediator/IPv4Address.h:18-25 | the text cut at its dots always has at least one field |
| IPv4.Stoul | Behavioral/Mediator/IPv4Address.h:22 | a field of digits reads as its decimal value |
| IPv4.FieldValue | Behavioral/Mediator/IPv4Address.h:20-24 | a field is accepted only with 1 to 3 bytes and a value of at most 255; an empty field or one over 3 bytes is malformed |
| IPv4.FieldValues | Behavioral/Mediator/IPv4Address.h:20-24 | the visited fields give all their values, or the error of a bad field |
| IPv4.ReadField | Behavioral/Mediator/IPv4Address.h:20-24 | checking one field in the loop body gives FieldValue of it |
| IPv4.ParseFields | Behavioral/Mediator/IPv4Address.h:13-29 | the loop's result is that of its four passes, failing when text is left over |
| IPv4.Parse | Behavioral/Mediator/IPv4Address.h:13-29 | the parsing constructor computes the declarative ParseSpec |
| IPv4.ParseSpec | Behavioral/Mediator/IPv4Address.h:13-29 | computes the parse declaratively: the text cut at its dots, four visits with the wrap to the first field, each visited field checked by FieldValue, packed most significant first, and rejected unless the fourth visit is the last field |
| IPv4.PassesMeetSpec | Behavioral/Mediator/IPv4Address.h:13-29 | the four passes of the loop agree with ParseSpec |
| IPv4.ParseFourFields | Behavioral/Mediator/IPv4Address.h:13-27 | four good fields parse to (f0 << 24) \| (f1 << 16) \| (f2 << 8) \| f3 |
| IPv4.ParseAccepts | Behavioral/Mediator/IPv4Address.h:13-29 | a text is accepted exactly when it has 1, 2 or 4 fields and every visited field is good, lengths counted in bytes |
| IPv4.FourthVisitLast | Behavioral/Mediator/IPv4Address.h:18-29 | the fourth visit ends on the last field exactly for 1, 2 or 4 fields |
| IPv4.AcceptedFieldCounts | Behavioral/Mediator/IPv4Address.h:18-29 | only texts with 1, 2 or 4 fields are accepted |
| IPv4.ThreeOrManyFieldsRejected | Behavioral/Mediator/IPv4Address.h:28-29 | texts with 3 fields, or 5 or more, are rejected |
| IPv4.BadLengthRejected | Behavioral/Mediator/IPv4Address.h:20-21 | an empty field or one longer than 3 bytes is rejected |
| IPv4.MultiByteFieldRejected | Behavioral/Mediator/IPv4Address.h:20-21 | "1.1.1.12é" is rejected: its last field has 3 characters but 4 bytes |
| IPv4.LargeValueRejected | Behavioral/Mediator/IPv4Address.h:22-24 | a field above 255 is rejected |
| IPv4.OneFieldRepeats | Behavioral/Mediator/IPv4Address.h:18-27 | "a" parses as "a.a.a.a" |
| IPv4.TwoFieldsRepeat | Behavioral/Mediator/IPv4Address.h:18-27 | "a.b" parses as "a.b.a.b" |
| IPv4.ByteOf | Behavioral/Mediator/IPv4Address.h:48-57 | each byte the formatter extracts is below 256 |
| IPv4.Format | Behavioral/Mediator/IPv4Address.h:42-60 | computes the text: the four bytes, most significant first, in decimal, joined by '.' |
| Decimal.NatToString | Behavioral/Mediator/IPv4Address.h:51-57 | to_string writes a canonical decimal numeral, one digit exactly for values below 10 |
| Decimal.DigitsValueOfNatToString | Behavioral/Mediator/IPv4Address.h:51-57 | the numeral to_string writes reads back as the same value |
| IPv4.JoinBytes | Behavioral/Mediator/IPv4Address.h:42-60 | the four bytes, most significant first, rebuild the address |
| IPv4.ParseFormat | Behavioral/Mediator/IPv4Address.h:13-60 | parsing a formatted address gives the same address, for every value |
| IPv4.FormatParse | Behavioral/Mediator/IPv4Address.h:13-60 | formatting a parsed canonical text gives back the text |
| IPv4.FormatInjective | Behavioral/Mediator/IPv4Address.h:42-60 | different addresses format differently |
| IPv4.Increment | Behavioral/Mediator/IPv4Address.h:32-38 | ++ adds one modulo 2^32 and always changes the address |
| IPv4.IncrementInverse | Behavioral/Mediator/IPv4Address.h:32-38 | ++ is undone by a step back, so it never loses an address |
| IPv4.Equals | Behavioral/Mediator/IPv4Address.h:40-65 | addresses are equal exactly when their 32-bit values are |
| IPv4.Hash | Behavioral/Mediator/IPv4Address.h:72-75 | the hash of an address is a 32-bit value |
| IPv4.HashFollowsEquality | Behavioral/Mediator/IPv4Address.h:40-75 | equal addresses hash alike, and with this hash only equal ones do |
| Mediator.ProbeNext | Behavioral/Mediator/mediator.cpp:66-74 | each probe is the counter's next value after ++ |
| Mediator.ProbesDistinct | Behavioral/Mediator/mediator.cpp:64-67 | fewer than 2^32 steps of ++ never revisit an address |
| Mediator.ProbedCount | Behavioral/Mediator/mediator.cpp:64-67 | up to 2^32 probes meet as many different addresses |
| Mediator.ProbesTaken | Behavioral/Mediator/mediator.cpp:64-67 | the probe loop can only continue while fewer than 2^32 addresses are taken |
| Mediator.Client.constructor | Behavioral/Mediator/mediator.cpp:20 | a new client has its address and no router |
| Mediator.Client.ConnectToRouter | Behavioral/Mediator/mediator.cpp:41 | sets the router and nothing else |
| Mediator.Client.SetAddress | Behavioral/Mediator/mediator.cpp:40 | sets the address and nothing else |
| Mediator.Client.ReceivePacket | Behavioral/Mediator/mediator.cpp:28-37 | the packet, with its sender, is delivered to this client |
| Mediator.Client.SendPacket | Behavioral/Mediator/mediator.cpp:22-26 | with a router, the packet reaches the client registered under the destination, sent from this client's own address, also when that client is the sender; without one nothing happens; the sender's address and router stay as they were |
| Mediator.SimpleRouter.constructor | Behavioral/Mediator/mediator.cpp:73-74 | an empty table, with the counter at 1 |
| Mediator.SimpleRouter.ForwardPacket | Behavioral/Mediator/mediator.cpp:52-59 | delivers to exactly the client registered under the destination; otherwise drops the packet |
| Mediator.SimpleRouter.JoinNetwork | Behavioral/Mediator/mediator.cpp:61-70 | adds exactly one entry and replaces none, under the client's own address when free, else under the first free probe; connects the client and leaves its address alone |
| PcBuilder.AddDevice | Creational/builder.cpp:22-39 | succeeds exactly on an empty slot below 5, placing the name there; a failure changes nothing |
| PcBuilder.RemoveDevice | Creational/builder.cpp:41-47 | empties a slot below 5 whatever name is given, and changes nothing else |
| PcBuilder.RemoveUndoesAdd | Creational/builder.cpp:22-47 | removing a device just added restores the slots |
| PcBuilder.FirstDeviceStays | Creational/builder.cpp:141-145 | a second device for the same slot fails and leaves the first in place |
| PcBuilder.ThreadCount | Creational/builder.cpp:67 | cores without hyperthreading, otherwise 2 * cores in 32-bit unsigned arithmetic |
| PcBuilder.ThreadCountWraps | Creational/builder.cpp:67 | with 2^31 cores or more, hyperthreading reports fewer threads than cores |
| PcBuilder.DesktopComputer.constructor | Creational/builder.cpp:82-90 | a new computer has the defaults: no case, no cooling, 1 GB, one core without hyperthreading, 1000 MHz and five empty slots |
| PcBuilder.DesktopComputer.Moved | Creational/builder.cpp:11 | the defaulted move constructor gives a separate computer with the same specifications and a fresh slot array |
| PcBuilder.DesktopComputer.AddPcieDevice | Creational/builder.cpp:22-39 | the slots and the result are AddDevice of the old slots |
| PcBuilder.DesktopComputer.RemovePcieDevice | Creational/builder.cpp:41-47 | the slots become RemoveDevice of the old slots |
| PcBuilder.DesktopComputerBuilder.constructor | Creational/builder.cpp:98-103 | a new builder holds a computer of its own, with the default specifications |
| PcBuilder.DesktopComputerBuilder.Build | Creational/builder.cpp:100-103 | moves the computer built so far into a new, separate computer with the same specifications and its own slot array |
| PcBuilder.BuildThenChangeCase | Creational/builder.cpp:100-109 | a setter called on the builder after the conversion leaves the computer already built as it was |
| PcBuilder.DesktopComputerBuilder.WithCase | Creational/builder.cpp:105-109 | changes only the case model, and returns the builder |
| PcBuilder.DesktopComputerBuilder.CoolUsing | Creational/builder.cpp:111-115 | changes only the cooling, and returns the builder |
| PcBuilder.DesktopComputerBuilder.WithMemorySize | Creational/builder.cpp:117-121 | changes only the memory size, and returns the builder |
| PcBuilder.DesktopComputerBuilder.WithCoreCount | Creational/builder.cpp:123-127 | changes only the core count, and returns the builder |
| PcBuilder.DesktopComputerBuilder.WithHyperThreadingCpu | Creational/builder.cpp:129-133 | turns on hyperthreading only, and returns the builder |
| PcBuilder.DesktopComputerBuilder.WithCpuFreq | Creational/builder.cpp:135-139 | changes only the frequency, and returns the builder |
| PcBuilder.DesktopComputerBuilder.WithPciE | Creational/builder.cpp:141-145 | adds the device as AddDevice does, ignoring failure, and changes nothing else |
| WeatherObserver.HomeUpdate | Behavioral/Observer/observer.cpp:107-131 | from 25 degrees up heating ends off, and windows end open unless they were open in rain; below 21 windows end closed, and below 16 heating ends on; in between, heating is unchanged and windows close only if open in rain |
| WeatherObserver.HomeUpdateSettles | Behavioral/Observer/observer.cpp:114-129 | below 25 degrees, a second identical notification changes nothing |
| WeatherObserver.HomeUpdateTogglesInRain | Behavioral/Observer/observer.cpp:114-121 | from 25 degrees up in rain, each notification flips the windows |
| WeatherObserver.Notified | Behavioral/Observer/observer.cpp:64-131 | a screen records the reading; a home controller applies HomeUpdate |
| WeatherObserver.ScreenShowsEachTime | Behavioral/Observer/observer.cpp:30-86 | a screen registered k times shows the reading k times |
| WeatherObserver.Without | Behavioral/Observer/observer.cpp:21-25 | removal drops every occurrence and keeps the count of every other observer |
| WeatherObserver.WithoutAbsent | Behavioral/Observer/observer.cpp:21-25 | removing an observer that is not registered changes nothing |
| WeatherObserver.AddThenRemove | Behavioral/Observer/observer.cpp:17-25 | removing what was just added undoes the add when it was not there before |
| WeatherObserver.WithoutAppend | Behavioral/Observer/observer.cpp:21-25 | removal works element by element and keeps the order of the rest |
| WeatherObserver.WeatherProvider.constructor | Behavioral/Observer/observer.cpp:14-34 | a new provider has no observers |
| WeatherObserver.WeatherProvider.AddObserver | Behavioral/Observer/observer.cpp:17-20 | appends the observer |
| WeatherObserver.WeatherProvider.RemoveObserver | Behavioral/Observer/observer.cpp:21-25 | the list becomes Without of the old one |
| WeatherObserver.WeatherProvider.Notify | Behavioral/Observer/observer.cpp:26-29 | the observer is updated from this provider |
| WeatherObserver.WeatherProvider.NotifyAll | Behavioral/Observer/observer.cpp:30-34 | each registered observer is updated in registration order, once per registration |
| WeatherObserver.WeatherProvider.SetWeather | Behavioral/Observer/observer.cpp:44-50 | stores the temperature and sky, then notifies every observer with them |
| WeatherObserver.Observer.constructor | Behavioral/Observer/observer.cpp:64-100 | a new observer registers itself with its weather provider |
| WeatherObserver.Observer.Detach | Behavioral/Observer/observer.cpp:102-105 | the destructor unregisters the observer |
| WeatherObserver.Observer.Update | Behavioral/Observer/observer.cpp:74-131 | ignores other providers; otherwise does what Notified says |
| PowerAdapter.MakeIndustrial | Structural/Adapter/adapter.cpp:59-64 | the triphase status is connected exactly when triphase is asked for |
| PowerAdapter.Phase1 | Structural/Adapter/adapter.cpp:67-70 | phase 1 and neutral are connected when triphase, else the monophase status |
| PowerAdapter.Phase23 | Structural/Adapter/adapter.cpp:68-69 | phases 2 and 3 are the triphase status |
| PowerAdapter.Phase | Structural/Adapter/adapter.cpp:29-91 | computes `phase()`: a home socket's connected status, an adapter's industrial phase 1 |
| PowerAdapter.MakeAdapter | Structural/Adapter/adapter.cpp:85-87 | an adapter wraps a 230 V monophase industrial socket with earth disconnected |
| PowerAdapter.Voltage | Structural/Adapter/adapter.cpp:29-89 | a home socket gives 230 V; an adapter gives its socket's voltage when it fits in a byte |
| PowerAdapter.Neutral | Structural/Adapter/adapter.cpp:30-91 | neutral is the same status as phase |
| PowerAdapter.AdapterLooksLikeHome | Structural/Adapter/adapter.cpp:29-91 | an adapter gives 230 V, and phase and neutral equal the status it was built with |
| PowerAdapter.CastWrapsVoltage | Structural/Adapter/adapter.cpp:89 | the byte cast turns 380 V into 124 |
| PowerAdapter.PlugInEffect | Structural/Adapter/adapter.cpp:110-123 | below 100 V nothing changes; above 240 V the charger breaks and keeps its old supply; otherwise it stores the supply and tries to charge |
| PowerAdapter.PlugPhoneEffect | Structural/Adapter/adapter.cpp:125-129 | stores the phone and charges exactly when Delivers holds |
| PowerAdapter.Delivers | Structural/Adapter/adapter.cpp:132-144 | computes when `charge` delivers: not broken, a phone and a supply, phase and neutral connected |
| PowerAdapter.Run | Structural/Adapter/adapter.cpp:110-129 | one charged flag per operation |
| PowerAdapter.BrokenForever | Structural/Adapter/adapter.cpp:118-148 | once broken, a charger stays broken and never delivers power |
| PowerAdapter.SupplyThenPhoneCharges | Structural/Adapter/adapter.cpp:110-144 | a connected home socket or adapter, then a phone, delivers power |
| PowerAdapter.PhoneCharger.constructor | Structural/Adapter/adapter.cpp:146-148 | a new charger has no supply, no phone and is not broken |
| PowerAdapter.PhoneCharger.PlugIn | Structural/Adapter/adapter.cpp:110-123 | the new state and result are PlugInEffect of the old state |
| PowerAdapter.PhoneCharger.PlugPhone | Structural/Adapter/adapter.cpp:125-129 | the new state and result are PlugPhoneEffect of the old state |
| PowerAdapter.PhoneCharger.Charge | Structural/Adapter/adapter.cpp:132-144 | delivers exactly when not broken, with phone and supply set and phase and neutral connected |
| IceCreams.SimpleDescriptionNamesBowl | Structural/Decorator/IceCream.h:19-22 | a simple description is "Ice-cream with " + bowl + " bowl" |
| IceCreams.SimpleDescriptionInjective | Structural/Decorator/IceCream.h:19-22 | different bowls give different simple descriptions |
| IceCreams.SimpleDescription | Structural/Decorator/IceCream.h:19-22 | computes "Ice-cream with " + bowl + " bowl" |
| IceCreams.MultiDescription | Structural/Decorator/IceCream.h:36-52 | computes "Ice-cream with" and then " " + bowl for each bowl, or "Ice-cream with no bowls " when there are none |
| IceCreams.Description | Structural/Decorator/IceCream.h:19-52 | computes `describe` for either kind of ice-cream |
| IceCreams.MultiDescriptionLast | Structural/Decorator/IceCream.h:36-52 | bowls are listed in order, each after a space |
| IceCreams.NoBowlsLooksLikeOneBowl | Structural/Decorator/IceCream.h:47-50 | with no bowls the text is "Ice-cream with no bowls ", trailing space included |
| IceCreams.EatOne | Structural/Decorator/IceCream.h:54-58 | drops the last bowl and keeps the others; does nothing when empty |
| IceCreams.IceCream.Simple | Structural/Decorator/IceCream.h:14-17 | a simple ice-cream holds its bowl |
| IceCreams.IceCream.MultiBowl | Structural/Decorator/IceCream.h:32-34 | a multi-bowl ice-cream holds its bowls |
| IceCreams.IceCream.Describe | Structural/Decorator/IceCream.h:19-52 | the loop builds exactly Description |
| IceCreams.IceCream.EatOneBowl | Structural/Decorator/IceCream.h:54-58 | the bowls become EatOne of the old ones |
| IceCreams.DecoratePrefix | Structural/Decorator/DynamicDecorator.h:20-39 | the wrapped description is a prefix of the decorated one |
| IceCreams.DecorateInjective | Structural/Decorator/DynamicDecorator.h:20-39 | the same layers over different descriptions give different texts |
| IceCreams.EatChangesDescription | Structural/Decorator/IceCream.h:36-58 | eating a bowl changes the description, except that one bowl named "no bowls " reads like none |
| IceCreams.EatingShowsThroughLayers | Structural/Decorator/DynamicDecorator.h:20-43 | eating a bowl changes the text under any stack of layers |
| DynamicDecorator.Decorator.Layers | Structural/Decorator/DynamicDecorator.h:13-35 | the layers from the bottom up end with this decorator's own |
| DynamicDecorator.Decorator.constructor | Structural/Decorator/DynamicDecorator.h:13-35 | a decorator stores what it wraps and its topping or cone |
| DynamicDecorator.Decorator.Describe | Structural/Decorator/DynamicDecorator.h:18-40 | computes the wrapped object's current description followed by " and " + topping + " on top" or " served in " + cone + " cone" |
| DynamicDecorator.DescribeDecorates | Structural/Decorator/DynamicDecorator.h:18-40 | a stack describes its bottom ice-cream as it is now, then each layer's text from the bottom up |
| DynamicDecorator.WrappedIsPrefix | Structural/Decorator/DynamicDecorator.h:20-39 | the wrapped object's description is a prefix of the decorator's |
| DynamicDecorator.ConeOverTopping | Structural/Decorator/DynamicDecorator.h:20-39 | a cone over a topping gives the base text, then the topping's, then the cone's |
| StaticDecorator.LayeredIsDecorated | Structural/Decorator/StaticDecorator.h:25-49 | an inheritance stack describes like a reference stack with the same layers |
| StaticDecorator.LayeredDescription | Structural/Decorator/StaticDecorator.h:25-49 | computes the base description followed by each layer's text, innermost first |
| StaticDecorator.LayeredPrefix | Structural/Decorator/StaticDecorator.h:27-48 | the base description is a prefix of the decorated one |
| StaticDecorator.ConeOverTopping | Structural/Decorator/StaticDecorator.h:27-48 | IceCreamInCone over IceCreamWithTopping gives the base text, then the topping's, then the cone's |
| StaticDecorator.DecoratedIceCream.constructor | Structural/Decorator/StaticDecorator.h:19-44 | each layer is stored and the remaining arguments build the base ice-cream |
| StaticDecorator.DecoratedIceCream.Describe | Structural/Decorator/StaticDecorator.h:25-49 | computes the decorated `describe`: the base ice-cream's current description under the layers |
| StaticDecorator.DecoratedIceCream.EatOneBowl | Structural/Decorator/StaticDecorator.h:16-37 | the inherited eatOneBowl drops the base's last bowl |
| StaticDecorator.EatChangesLayeredDescription | Structural/Decorator/StaticDecorator.h:16-49 | after the inherited eatOneBowl the decorated description changes to match |
| FileTree.IndentShape | Structural/Composite/composite.cpp:24-33 | no prefix at level 0; at level L, (L-1)(2L+1) + 4 characters ending in "\|-- " |
| FileTree.Indent | Structural/Composite/composite.cpp:24-33 | computes `printIndentation`: nothing at level 0, else level - 1 blocks of "\|" and 2 * level spaces, then "\|-- " |
| FileTree.Render | Structural/Composite/composite.cpp:17-51 | computes `tree`: the node's own line, then for a directory each child's lines one level deeper |
| FileTree.RenderAll | Structural/Composite/composite.cpp:48-50 | computes the lines of the children in order |
| FileTree.RenderCount | Structural/Composite/composite.cpp:17-51 | a tree prints one line per node |
| FileTree.RenderAllCount | Structural/Composite/composite.cpp:48-50 | the children of a directory print one line per node below it |
| FileTree.RenderFirstLine | Structural/Composite/composite.cpp:17-47 | a node's first line is its prefix and name, and a file prints only that line |
| FileTree.RenderAddChild | Structural/Composite/composite.cpp:45-56 | adding a child appends that child's lines one level deeper and keeps the earlier lines |
| FileTree.Node.File | Structural/Composite/composite.cpp:8-10 | a file has its name |
| FileTree.Node.Directory | Structural/Composite/composite.cpp:41-43 | a directory has its name and no children |
| FileTree.Node.SetName | Structural/Composite/composite.cpp:14-15 | getName returns the name last set |
| FileTree.Node.GetName | Structural/Composite/composite.cpp:14 | returns the name |
| FileTree.Node.AddFile | Structural/Composite/composite.cpp:53-56 | appends the child after the earlier ones |
| FileTree.Node.PrintIndentation | Structural/Composite/composite.cpp:24-33 | the loop writes L-1 blocks of a bar and 2L spaces, then "\|-- " |
| FileTree.Node.Tree | Structural/Composite/composite.cpp:17-51 | the lines printed are those of the tree the node unfolds to |
| FileTree.Node.ChildTrees | Structural/Composite/composite.cpp:48-50 | the children's trees, in insertion order |
| CpuPrototype.DescriptionShowsWidth | Creational/Prototype/prototype.cpp:54-59 | the 64/32-bit and 64-bit-only descriptions differ |
| CpuPrototype.DescriptionShowsFrequency | Creational/Prototype/prototype.cpp:21-59 | equal descriptions of cores with the same ISA and width mean equal frequencies |
| CpuPrototype.CoreDescription | Creational/Prototype/prototype.cpp:21-26 | computes "ISA: " + isa + " core running at " + the frequency in decimal + " MHz" |
| CpuPrototype.WidthNote | Creational/Prototype/prototype.cpp:54-59 | computes " (64/32 bit)" or " (64 bit only)" |
| CpuPrototype.Description | Creational/Prototype/prototype.cpp:21-59 | computes the 64-bit core's description: the base description, then the width note |
| CpuPrototype.CpuCore64.constructor | Creational/Prototype/prototype.cpp:39-44 | a core holds its ISA, frequency and width |
| CpuPrototype.CpuCore64.SetFrequency | Creational/Prototype/prototype.cpp:18-19 | getFrequency returns the frequency last set, and the ISA and width are constant |
| CpuPrototype.CpuCore64.GetFrequency | Creational/Prototype/prototype.cpp:19 | returns the frequency |
| CpuPrototype.CpuCore64.Describe | Creational/Prototype/prototype.cpp:54-59 | computes Description of the core's current values |
| CpuPrototype.CpuCore64.Clone | Creational/Prototype/prototype.cpp:47-64 | a new object with the same ISA, frequency and width, and the same description |
| CpuPrototype.CloneAndTune | Creational/Prototype/prototype.cpp:61-81 | retuning a clone leaves the prototype's frequency and description unchanged |

## Left out

- Console output is not modelled as text. `printStats`, `printSpecs`, `deliverPower`, `operator<<`, `InformationScreen::update` and `receivePacket` become state, return values or a log of received packets.
- `main` functions and the demo drivers are left out: Structural/Decorator/decorator.cpp and Behavioral/Iterator/main.cpp are not part of this model. The parts of a demo that a lemma restates (the bus chain, the clone-and-retune) are named in the table.
- Memory management is left out: raw addresses, placement new, explicit destructor calls and leaks. Objects are Dafny references.
- GrowableVector.Vector: the copy constructor (Vector.h:100-107) is left out. It calls `allocate` while the buffer is still null.
- GrowableVector.Vector.PushBack: uses the corrected growth (see Findings), so the out-of-bounds write of the source is not reproduced.
- GrowableVector.Vector.EmplaceBack: `emplaceBack` repeats the same `capacity + capacity / 2` growth (Vector.h:128-129), with the same write past the buffer at capacity 0 or 1; the model uses the corrected growth here too. It returns the element placed by value, where the source returns a reference into the buffer.
- MemoryBus: unwritten RAM bytes are uninitialised in the source. Here they are arbitrary values of the memory, and only write-then-read at the same address is stated. Word copies are little-endian.
- MemoryBus.BusHandler.HandleRequest: requires the handlers reachable through `next` to form a chain without cycles. The source recurses forever on a cycle.
- IPv4.ByteLength: the bytes of the `std::string` are taken to be the UTF-8 encoding of the text; another encoding would count other lengths.
- IPv4.Stoul: models `std::stoul` only on fields of at most three characters, the only ones the parser passes to it. It covers leading white space, sign, digit prefix, and `invalid_argument` as an error value. `out_of_range` cannot arise at that length.
- IPv4.Hash: the standard library's `std::hash<uint32_t>` is taken to be the identity. Only "equal addresses hash alike" is meant in general.
- IPv4.Increment: postfix `++` is modelled where it is used, in `Mediator.SimpleRouter.JoinNetwork`, which hands out the old value and stores the next one.
- Mediator.SimpleRouter.JoinNetwork: requires fewer than 2^32 registered addresses. With a full table the source loops forever.
- Mediator: the abstract `Router` interface is left out. Clients hold a `SimpleRouter` directly.
- PcBuilder.DesktopComputerBuilder.Build: the builder's own computer is left as it was after the move. In the source its strings are in a moved-from state, which C++ leaves unspecified.
- PcBuilder: the uninitialised `cooling` field is modelled as `None` until a cooling is chosen.
- PcBuilder.DesktopComputer: `threadCount` is modelled by `Threads`, which returns `ThreadCount`. Specification printing is left out.
- WeatherObserver: the two observer classes are one class with a kind tag (screen or home controller), instead of virtual dispatch. The provider's reading before the first `setWeather` is unspecified.
- WeatherObserver.WeatherProvider.NotifyAll: the order of updates is stated per observer, as the number of times it is registered. Observers of other providers are not touched.
- PowerAdapter.Voltage: an adapter's inner socket may hold any voltage, which the source's constructor never produces (it always passes 230 V). The byte cast is stated for voltages below 256 and shown for 380 V by CastWrapsVoltage.
- DynamicDecorator.Decorator.Layers: a ghost list of the layers below each decorator, used only to state what `describe` returns.
- StaticDecorator: the nested template types are modelled as one class holding the list of layers, outermost first, over the base ice-cream.
- FileTree.Node.Tree: requires that the object graph below the node is a tree (no cycles or sharing along a path). It is stated against the Entry value the graph unfolds to.
- Behavioral/Null_object, Creational/Abstract_factory and Structural/Bridge hold only virtual dispatch to console output, and are not part of this model.

## Findings

| source | as written | input that shows it | evidently intended | confidence | as-written member | corrected member |
|---|---|---|---|---|---|---|
| Behavioral/Iterator/Vector.h:111-114 | a full vector grows to capacity + capacity / 2, which is the same capacity when it is 0 or 1, and `pushBack` then writes one past the buffer; `emplaceBack` (lines 128-129) repeats the same growth | a vector built from an initializer list of 0 or 1 items, then one `pushBack` | growth always makes room for at least one more element | not executed | GrowableVector.GrowthAsWrittenStalls | GrowableVector.GrowthMakesRoom |

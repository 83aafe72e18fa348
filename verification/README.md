# A verified model of the RISC-V debug unit

This project models the debug unit that sits between a JTAG debugger and the harts of a RISC-V system
(RISC-V External Debug Support 0.13.2) and proves what it is for: that abstract commands mean what they
say on every hart and under every interleaving, that harts are stopped and resumed one at a time, that
the system bus behaves like memory, and that what comes out of the JTAG port is an answer to what was
asked. `dafny verify dfyconfig.toml` checks everything.

## How the model is laid out

| files | what they model |
|---|---|
| `Bits.dfy`, `Bytes.dfy` | words as bits (least significant first) and as little-endian bytes |
| `RiscV.dfy`, `DebugRom.dfy`, `Hart.dfy` | the instruction encoders, a decoder, the words of both debug ROM images, and one hart executing out of the 4 KiB debug-memory window |
| `AbstractCommand.dfy`, `CommandWord.dfy`, `Transfer.dfy`, `TransferLaws.dfy` | the command compiler (ten words per command), the command register as a number, what a command means, and the laws of that meaning |
| `ParkLoop.dfy` | the debug ROM as a labelled program, and the proof that the ROM words are that program |
| `DmMem.dfy`, `DmCsrs.dfy`, `Haltsum.dfy` | the debug memory and the debug module registers, clock tick by clock tick, and the halt-summary tree |
| `DmiAnswers.dfy` | what the debugger is told: status by register address, register words by the weights of their fields |
| `RunControl.dfy` | up to 1024 harts, debug memory and registers wired together as one step system |
| `RunInvariant.dfy`, `RunSafety.dfy`, `RunTheorems.dfy`, `RunProgress.dfy`, `RunStatus.dfy`, `RunRace.dfy`, `RunCommands.dfy` | its invariant, preservation by every tick, and the theorems about runs |
| `Sba.dfy`, `SbaAtomic.dfy`, `SbaErrors.dfy`, `SbaStream.dfy` | the system bus master, its refinement of an atomic memory interface, its two errors, and streaming |
| `Jtag.dfy`, `JtagScan.dfy`, `JtagTasks.dfy`, `JtagPaths.dfy`, `JtagDmi.dfy`, `JtagWrites.dfy`, `JtagDriver.dfy` | TAP controller and transport registers, pin sequences, scans and pauses, the DMI protocol for reads and for writes, and the debugger's driver tasks |
| `DebugUnit.dfy` | transport and registers in their two clock domains with the crossing between them |

Modules with registers are classes whose `Tick` is one clock edge; each `Tick` is proved equal to a
next-state function, and the theorems are about those functions.

**Logical registers.** While a hart is parked, the ROM borrows its s0 and a0 and keeps their values in
dscratch0 and, when the module is not at address zero, dscratch1. A hart's *logical* registers are those
a debugger is entitled to see: the stashed values where the ROM has borrowed the register, the registers
themselves otherwise. With one scratch register dscratch1 is an ordinary part of the logical state.

**Claims.** A hart has a *claim* from the instruction in which it reads a set go (or resume) bit in its
flag byte until its next HALTED (or RESUMING) store. A claim records how far the command has come:
started, done, trapped, in the program buffer, left by `ebreak`.

## What is assumed of a run

* In a clock tick at most one hart executes one instruction, at most one DMI request is taken, and the
  DMI request comes at least one cycle after the previous one (`doc/debug-system.md:427`).
* dmactive stays 1, and hartsel is not changed while the hart control is busy. A write that changes
  hartsel in an idle cycle is allowed even when it catches a resume request being taken;
  `RunRace.ResumeReachesItsHart` says exactly when it then reaches another hart, and
  `RunRace.RaceIsReachable` that this happens.
* Program-buffer code may change any register and any data, but does not store to the module's control
  registers and leaves only by `ebreak` or an exception. `ebreak` in debug mode only jumps to the halt
  address. Harts outside debug mode do not touch the window. A hart may halt at any time.
* How a core reads and writes its CSRs is arbitrary, and any register-touching word of a command may trap.
* The system bus answers every granted access once, in a later cycle.
* The clock-domain crossing is a channel of one request: it answers the request it has taken and forgets
  it on a clear. `Jtag*.dfy` take what it shows, cycle by cycle, as given; `DebugUnit.dfy` puts the
  registers behind it. The debug module answers Success or Busy only (`DmCsrs.Status` has no third value).

Where the code and `doc/debug-system.md` or the debug specification differ, the model follows the code:
a command is started whatever cmderr holds, a command asking for nothing raises an exception, accesses
to dscratch0 and dscratch1 reach s0 and a0, and a DMI capture while a write is in flight shows status 0.

## Model

| member | source | states |
|---|---|---|
| RiscV.DecodeLoad | src/dm_pkg.sv:376-404 | decoding an encoded integer or floating-point load gives back its operands, for every operand and every size code |
| RiscV.DecodeStore | src/dm_pkg.sv:390-412 | the same for stores, whose offset is split around the source register |
| RiscV.DecodeCsr | src/dm_pkg.sv:414-424 | the same for CSR reads and writes |
| AbstractCommand.GenerateMatchesListing | src/dm_mem.sv:383-517 | for every startable command each of the ten generated words decodes to the listed instruction |
| AbstractCommand.RefusedWordsLeave | src/dm_mem.sv:411-516 | the words generated for a refused command are an ebreak first, touch no register and do not run on into the program buffer |
| CommandWord.ParsesBack | src/dm_pkg.sv:177-191 | for all fields and either reserved bit, the command register holding the weighted sum of the fields is that command |
| CommandWord.RegnoNames | src/dm_mem.sv:407-491 | regno 0x1000 + n names integer register n and 0x1020 + n floating-point register n, whatever the bits that are not decoded |
| CommandWord.RegnoNamesCsr | src/dm_mem.sv:438-448 | regno 0 to 0xfff names that CSR |
| CommandWord.Refusals | src/dm_mem.sv:404-514 | a command is refused if and only if it is of another kind, has a size the build lacks, transfers a register above 0x3fff, or asks for postincrement without a transfer |
| ParkLoop.FetchAt | debug_rom/debug_rom.h:9-50 | every word of either ROM image, fetched at its label, decodes to the instruction of the assembly source |
| ParkLoop.WidthIndependent | src/dm_mem.sv:220-228 | an aligned access gets the same bytes of a 64-bit row over a 32-bit bus as over a 64-bit bus |
| ParkLoop.FlagByte | src/dm_mem.sv:364-371 | hart i polling base + 0x400 + i reads its request bits if it is selected and zero otherwise, on both bus widths, for all i below 1024 |
| ParkLoop.RomStep | debug_rom/debug_rom.S:39-112 | fetching, decoding and executing the real ROM word at a label does what the label says, on every core |
| ParkLoop.RomKeeps | debug_rom/debug_rom.S:39-112 | inside the ROM the register facts carry over to the next label and the logical registers never change |
| Transfer.WordStep | src/dm_mem.sv:383-517 | each generated word leads from one intermediate assertion to the next, or traps only where the named register or the data registers are touched |
| Transfer.LastWord | src/dm_mem.sv:399-507 | after the last word the registers and data are the meaning of the command, and the hart returns or runs on into the program buffer |
| Transfer.TrapRestores | debug_rom/debug_rom.S:74-92 | wherever a generated word can trap, the exception path finds the hart's own s0 and a0 and untouched data |
| TransferLaws.OnlyTheNamedRegister | src/dm_mem.sv:407-491 | any command changes at most the register it names or the low data bytes, never both; named through a CSR that stashes it, that register is s0 or a0 |
| TransferLaws.WriteThenRead | src/dm_mem.sv:408-491 | writing a GPR or FPR and reading it back returns the data written, for every width the register holds |
| TransferLaws.CsrWriteSparesRegisters | src/dm_mem.sv:438-448 | a CSR write leaves all integer registers alone, for all data, if and only if the CSR is not one that stashes s0 or a0 |
| TransferLaws.CsrReadShowsRegister | src/dm_mem.sv:481-491 | what a CSR read returns is independent of the integer registers, for all register files, if and only if the CSR is not one that stashes s0 or a0; otherwise it is that register |
| TransferLaws.SizeOfTransfer | src/dm_mem.sv:407-491 | a command moves two to the aarsize bytes |
| TransferLaws.SignExtended | src/dm_mem.sv:407-448 | a loaded value is the number of its bytes with the top bit extended to the register width |
| TransferLaws.FloatBoxed | src/dm_mem.sv:428-436 | a single-precision value in a wider register has its upper four bytes all ones |
| DmMem.CommandFate | src/dm_mem.sv:151-210 | a command arriving in an idle cycle starts, is reported, or is dropped silently; exact conditions for each |
| DmMem.ErrorReported | src/dm_mem.sv:143-218 | in any state an exception store is reported before a refused command, and that before a command for a hart that is not halted, the last only at rest; nothing else is reported |
| DmMem.AlignedIsLeast | src/dm_mem.sv:65-66 | hart numbers are cut to the least power of two that covers the harts |
| DmMem.HartNumbersWrap | src/dm_mem.sv:104-112 | numbers that differ above those bits name the same hart, numbers within them their own |
| DmMem.PageBlind | src/dm_mem.sv:281-374 | reads, stores, control registers and errors depend on the low twelve address bits only |
| DmMem.FetchThroughRows | src/dm_mem.sv:321-362 | the rows of the window read at WhereTo, AbstractCmd and ProgBuf are the words harts fetch, at any bus address and with any tag |
| DmMem.FetchThroughRom | src/dm_mem.sv:519-551 | the same for the ROM region, of which each image decodes as many address bits as its size takes |
| DmMem.FetchThroughPort | src/dm_mem.sv:220-228 | whatever the read port shows a hart that fetches from the window is the word the hart model executes |
| DmMem.LoadThroughPort | src/dm_mem.sv:343-371 | for every offset in the flags or data region, every natural size the bus carries, either bus width and any page, the lanes of the read port hold the bytes the hart model loads |
| DmMem.LoadsInHalves | src/dm_mem.sv:220-228 | an eight-byte load over a 32-bit bus finds its two halves in two reads |
| DmMem.DataStoredAtBase | src/dm_mem.sv:237-261 | a hart store to data0 replaces exactly the bytes stored, as one 64-bit or two 32-bit bus accesses |
| DmMem.StoreForwarded | src/dm_mem.sv:237-261 | what the module forwards for a hart store of up to a bus word is the data after that store; a store elsewhere forwards none |
| DmMem.UpperHalfAddress | src/dm_mem.sv:248-253 | on a 64-bit bus a write is faithful for all data if and only if it is addressed at the lower half or enables no lane |
| DmMem.NamedByStore | src/dm_mem.sv:104-109 | the hart a control-register store names is the number the hart stored |
| DmMem.ForwardBytes | src/dm_mem.sv:248-254 | the byte-lane loop computes the forwarded data registers |
| DmMem.DebugMemory.HartControl | src/dm_mem.sv:143-218 | the state machine with its overrides is the next-state and error function the theorems use |
| DmMem.DebugMemory.ReadWrite | src/dm_mem.sv:281-319 | halted bits and control pulses after a store |
| DmMem.DebugMemory.Resumed | src/dm_mem.sv:264-279 | a RESUMING store wins over a clear, ndmreset over both |
| DmMem.DebugMemory.Tick | src/dm_mem.sv:553-575 | one clock edge is the next-state function, the latched row, ROM address and forwarded data included; after a read the port shows the word and the byte lanes of that address |
| DmCsrs.CmderrGatesNothing | src/dm_csrs.sv:412-417 | starting a command does not depend on cmderr, and a hart error replaces whatever cmderr held |
| DmCsrs.ControlReadsBack | src/dm_csrs.sv:534-551 | reading dmcontrol returns hartsel, haltreq, resumereq, ndmreset and dmactive as stored, write-only fields zero |
| DmCsrs.StorageReadsBack | src/dm_csrs.sv:297-331 | a data or program-buffer register written while idle reads back as written and all others as before; written while busy, all read as before |
| DmCsrs.AutoexecRestarts | src/dm_csrs.sv:428-448 | after a write to abstractauto an access restarts the command exactly if its bit was set and no command runs |
| DmCsrs.CmderrClears | src/dm_csrs.sv:397-411 | writing abstractcs back as read clears cmderr, whatever it was |
| DmCsrs.SbcsReadsBack | src/dm_csrs.sv:457-469 | writing sbcs back as read clears both errors and keeps the configuration |
| DmCsrs.StepSplits | src/dm_csrs.sv:511-551 | one step of the run-control registers is the request followed by hart, dmcontrol and reset side effects, news from the harts winning |
| DmiAnswers.BusyExactly | src/dm_csrs.sv:297-509 | by register address: a request is answered Busy if and only if it is a command register access while a command runs, an sbdata access or sbaddress write while the bus master is busy or the busy error is held, or an sbcs write while the bus master is busy |
| DmiAnswers.RefusedDuringCommand | src/dm_csrs.sv:305-312 | an access refused because a command runs changes nothing but cmderr, which becomes Busy if it was none; news from the harts goes first |
| DmiAnswers.DataAnswer | src/dm_csrs.sv:297-301 | a read of data0 or data1 returns the little-endian number in its bytes |
| DmiAnswers.RegistersRead | src/dm_csrs.sv:314-363 | what every other address reads as, in numbers; unmapped addresses read as zero |
| DmiAnswers.SummariesRead | src/dm_csrs.sv:335-338 | the four halt summaries at their addresses tell of exactly the halted harts |
| DmiAnswers.StatusNumber | src/dm_pkg.sv:101-122 | dmstatus as the weighted sum of its fields |
| DmiAnswers.AbstractcsNumber | src/dm_pkg.sv:155-164 | abstractcs as the weighted sum of its fields |
| DmiAnswers.SbcsNumber | src/dm_pkg.sv:206-222 | sbcs as the weighted sum of its fields |
| DmiAnswers.CmderrMasked | src/dm_csrs.sv:397-411 | of cmderr exactly the bits written as one are cleared |
| DmiAnswers.ControlParsesBack | src/dm_pkg.sv:124-138 | for all fields, dmcontrol written as their weighted sum is taken as those fields, ackhavereset included |
| DmiAnswers.ControlTaken | src/dm_csrs.sv:386-392 | a dmcontrol write takes effect field by field, hartsel cut to its range; an acknowledged resume request goes down |
| DmiAnswers.AckCleared | src/dm_csrs.sv:543-545 | the acknowledgement is cleared if and only if a dmcontrol write takes resumereq from zero to one |
| DmiAnswers.RequestsGoToOne | src/dm_csrs.sv:567-575 | halt and resume requests reach the hart that hartsel names and no other |
| DmiAnswers.ControlKept | src/dm_csrs.sv:534-551 | every other request leaves dmcontrol alone |
| DmiAnswers.InactiveIsReset | src/dm_csrs.sv:610-641 | while dmactive is zero everything else is held at reset, resets of harts are still seen, and dmactive can be written |
| DmiAnswers.AutoexecKept | src/dm_csrs.sv:428-438 | of abstractauto the bits of two data and eight program-buffer registers are kept |
| DmCsrs.Registers.AccessGuarded | src/dm_csrs.sv:297-456 | refused and granted accesses to data, program buffer and abstract command registers, autoexec included |
| DmCsrs.Registers.AccessBus | src/dm_csrs.sv:336-509 | refused and granted accesses to the system bus registers |
| DmCsrs.Registers.RunStep | src/dm_csrs.sv:511-564 | request handling and side effects compute the next run-control registers |
| DmCsrs.Registers.Tick | src/dm_csrs.sv:606-655 | one clock edge: registers, resumeack clear, and the response queue of two with its flush; hartinfo, nextdm and the unavailable harts are inputs |
| Haltsum.HaltSummary | src/dm_csrs.sv:109-163 | the three reduction loops compute the four summary registers |
| Haltsum.Haltsum0Exact | src/dm_csrs.sv:109-120 | haltsum0 equals brute force for all vectors and hartsel if and only if there are at most 32767 * 32 harts |
| Haltsum.Haltsum1Exact | src/dm_csrs.sv:122-137 | haltsum1 equals brute force if and only if there are at most 1023 * 1024 harts |
| Haltsum.Haltsum2Exact | src/dm_csrs.sv:139-154 | haltsum2 equals brute force if and only if there are at most 31 * 32768 harts |
| Haltsum.Haltsum3Exact | src/dm_csrs.sv:156-163 | haltsum3 is defined and equals brute force if and only if the harts do not fill their groups of 32768, or fill all 32 |
| Haltsum.AllRight | src/dm_csrs.sv:109-163 | all four at once, up to 31 * 32768 harts that do not fill their last group |
| RunSafety.TickKeeps | src/dm_top.sv:119-240 | every disciplined tick of harts, debug memory and registers keeps the run-control invariant, hartsel moving freely while the hart control is idle |
| RunTheorems.Always | src/dm_mem.sv:143-218 | the invariant holds in every state of every run |
| RunTheorems.StartOk | src/dm_csrs.sv:606-655 | a freshly activated module with running harts satisfies it |
| RunTheorems.MutualExclusion | src/dm_mem.sv:143-218 | at most one hart is between its go or resume flag and its next store; it is the selected one; none while idle; the selected one while executing |
| RunTheorems.BusyTick | src/dm_csrs.sv:297-456 | while busy no request changes command, program buffer, hartsel or data; data change by hart stores only |
| RunTheorems.FrozenCode | src/dm_mem.sv:321-353 | from leaving idle until idle again every word at WhereTo, AbstractCmd and ProgBuf is constant, for every request stream |
| RunTheorems.CommandMeans | src/dm_mem.sv:151-198 | a command without postexec, under every interleaving, leaves its hart parked with exactly its meaning applied; if a word traps, registers and data are untouched and cmderr is Exception |
| RunCommands.WrittenCommandMeans | src/dm_csrs.sv:412-418 | the same from the DMI write on: the number written to address 0x17, once started, has exactly the meaning of its fields |
| RunCommands.CommandStarted | src/dm_csrs.sv:412-418 | a command that starts is the one whose number was written in the cycle before, so the theorems about the current command are about the fields written |
| RunCommands.ReadNumber | src/dm_mem.sv:450-491 | a 32-bit or 64-bit read of an integer register leaves its number in data0, or in both data registers |
| RunCommands.WrittenNumber | src/dm_mem.sv:407-448 | writing an integer register leaves in it the number in the data registers, sign-extended if it is shorter |
| RunCommands.ProgbufFetched | src/dm_csrs.sv:439-449 | an instruction written to a program-buffer register at rest is what harts fetch at its place, and no other word changes |
| RunCommands.SameView | src/dm_mem.sv:364-371 | the view the harts of a run have is the one the debug memory puts behind its read port, the request bits masked during ndmreset |
| RunCommands.WhereToResumes | src/dm_mem.sv:321-326 | a hart that fetches from WhereTo with its resume request up and no command at work is sent to the resume entry of the ROM |
| RunTheorems.EmptyCommandFails | src/dm_mem.sv:386-388 | a command with neither transfer nor postexec always ends with an exception |
| RunTheorems.BufferSees | src/dm_mem.sv:331-337 | the first program-buffer instruction sees the logical registers and data at command start with the transfer applied |
| RunTheorems.BufferLeaves | debug_rom/debug_rom.S:39-57 | what program-buffer code leaves at its ebreak is the logical register file of the parked hart |
| RunProgress.CommandBounded | src/dm_mem.sv:171-198 | from Go a command without postexec ends within 43 instructions of its hart, trapping or not, under every interleaving |
| RunProgress.ResumeBounded | src/dm_mem.sv:180-186 | a resume request takes a halted hart at most 21 instructions, and any other selectable hart at most 24 of its instructions in debug mode |
| RunProgress.NeverAnswered | src/dm_mem.sv:180-186 | a resume request for a hart that cannot be selected ends only with a reset of the harts |
| RunStatus.HaltedIsHistory | src/dm_mem.sv:295-311 | halted is 1 exactly when the hart's last HALTED or RESUMING store since ndmreset was HALTED |
| RunStatus.ResumeackIsFresh | src/dm_csrs.sv:543-548 | after resumereq is raised for the selected hart its resumeack is 1 only if it has stored to RESUMING since |
| RunStatus.HaveresetIsHistory | src/dm_csrs.sv:386-392 | havereset is shown for a hart if and only if it has been reset since its last acknowledgement |
| RunStatus.StatusShows | src/dm_csrs.sv:239-259 | a dmstatus read shows those bits, havereset and nonexistent of the selected hart in the any and all positions, halted and running masked by unavailable |
| RunRace.ResumeReachesItsHart | src/dm_mem.sv:164-167 | while dmcontrol is written at rest, the resume request that is taken reaches the hart it was made for if and only if none is about to be taken, the harts are in reset, or hartsel stays the same |
| RunRace.AboutToResumeMeans | src/dm_mem.sv:164-167 | a resume request is about to be taken if and only if resumereq is up, haltreq is not, and the selected hart is halted and not yet acknowledged |
| RunRace.RaceIsReachable | src/dm_mem.sv:164-167 | in every system of two or more harts a disciplined run from rest leads to a state in which one such write resumes another, running hart |
| Sba.BusMaster.Mask | src/dm_sba.sv:71-89 | the byte-enable cases enable the lanes of the access |
| Sba.BusMaster.Tick | src/dm_sba.sv:100-209 | one clock edge of the bus master, with or without byte enables on reads: request, report to the registers, next state |
| SbaAtomic.WriteLands | src/dm_sba.sv:199-206 | an aligned, supported write puts the low bytes of sbdata at its address and touches nothing else |
| SbaAtomic.ReadDelivers | src/dm_sba.sv:199-209 | an aligned, supported read delivers the bytes from its address to the end of the bus word |
| SbaAtomic.SuccessIsAccepted | src/dm_csrs.sv:345-363 | the accepted requests of the refinement are exactly those answered Success, and data reads return the data registers |
| SbaAtomic.RefusedOnlySetsBusyError | src/dm_csrs.sv:457-506 | a request that is not accepted changes nothing but sbbusyerror |
| SbaErrors.BusyErrorNext | src/dm_csrs.sv:457-509 | by register address: what raises sbbusyerror in a cycle, and the one write that clears it |
| SbaErrors.HeldAnswersBusy | src/dm_csrs.sv:345-363 | while it is held every sbdata access and sbaddress write is answered Busy with zero data |
| SbaErrors.HeldRun | src/dm_csrs.sv:470-509 | over every run of requests without the clearing write the error stays, the bus master stays at rest, and data, address and memory stay; without an sbcs write the configuration does too |
| SbaErrors.HalvesWritten | src/dm_csrs.sv:470-509 | writes of sbaddress0, sbaddress1, sbdata0 and sbdata1 at rest replace their half by the number written and nothing else |
| SbaErrors.ConfigurationTaken | src/dm_csrs.sv:457-469 | a write of sbcs at rest sets the configuration field by field and clears the errors it is told to |
| SbaErrors.ErrorRun | src/dm_csrs.sv:353-354 | over every run without a write that clears sberror no access starts and memory is not touched |
| SbaErrors.AccessFate | src/dm_sba.sv:114-188 | a started access reaches the bus if and only if two to the sbaccess fits the bus and divides the address; error 3, 4, 7, 2 or none as it ends |
| SbaErrors.ReadEnablesOnly | src/dm_sba.sv:190-198 | a build without read enables differs in reads only |
| SbaAtomic.TickAgrees | src/dm_sba.sv:114-188 | every clock tick keeps the machine in agreement with the log of accepted requests |
| SbaAtomic.RefinesAtomic | src/dm_csrs.sv:457-530 | whenever the bus master rests, registers and memory are those of the requests answered Success carried out one whole access at a time, in order |
| SbaAtomic.RequestsAreSound | src/dm_sba.sv:174-188 | every bus request has a supported size and aligned address, and none is made while sberror is set |
| SbaAtomic.RequestIsStable | src/dm_sba.sv:124-135 | address, direction, byte enables and write data are constant from request to grant |
| SbaAtomic.AccessesConserved | src/dm_sba.sv:114-188 | every accepted trigger is granted once or given up once with an error, every grant is answered once |
| SbaStream.WriteStream | src/dm_csrs.sv:489-498 | n autoincremented writes store the items one after the other, wrapping at the bus width |
| SbaStream.StreamStored | src/dm_sba.sv:94-97 | each byte of each item of such a stream ends up at its place |
| SbaStream.StreamSpares | src/dm_sba.sv:94-97 | no byte outside the items changes |
| SbaStream.ReadStream | src/dm_csrs.sv:345-354 | after k reads of a read-on-address, read-on-data stream the data registers hold item k and memory is unchanged |
| SbaStream.StreamRoundTrip | src/dm_csrs.sv:476-507 | one log of accepted requests that writes a stream, turns on reading ahead in sbcs and reads back returns every item in the low data bytes |
| Jtag.DmiJtag.RequestMachine | src/dmi_jtag.sv:139-256 | the request state machine with its sticky errors is the function the theorems use |
| Jtag.DmiJtag.Tick | src/dmi_jtag.sv:261-299 | one rising edge of TCK: TAP, dtmcs and DMI registers, request machine, TDO |
| JtagScan.ScanIsQueue | src/dmi_jtag_tap.sv:126-145 | between Capture-DR and Update-DR, with any pauses and re-entries, TDO emits the first bits of captured ++ TDI and the register holds the last |
| JtagScan.SixHighs | src/dmi_jtag_tap.sv:216-302 | six TMS-high ticks from any state: Test-Logic-Reset, IDCODE selected, request machine idle, no error |
| JtagPaths.PausedScan | src/dmi_jtag_tap.sv:241-261 | bits shifted in two parts with a pause of any length between them go through the register as in one |
| JtagPaths.ColumnsAlike | src/dmi_jtag_tap.sv:262-300 | in the instruction column the controller moves as in the data column, for every pin sequence inside it |
| JtagPaths.UpdateEitherWay | src/dmi_jtag_tap.sv:241-261 | an update takes place whether the controller goes to idle or into the next scan |
| JtagPaths.EmptyScan | src/dmi_jtag_tap.sv:241-261 | a scan without a shift updates with what it has captured |
| JtagPaths.InstructionCodes | src/dmi_jtag_tap.sv:150-163 | IDCODE, dtmcs and DMI access by number; every other instruction selects BYPASS |
| JtagPaths.IrScanReads | src/dmi_jtag_tap.sv:78-102 | an instruction scan shifts out the number 5 |
| JtagPaths.DtmcsNumber | src/dm_pkg.sv:235-244 | dtmcs as captured, as the weighted sum of its fields |
| JtagPaths.DtmcsWritten | src/dmi_jtag.sv:247-254 | writing dtmcs with bit 17 clears the request machine, with bit 16 alone only the error |
| JtagPaths.AnswerOutcome | src/dmi_jtag.sv:176-216 | the error and the data each kind of answer leaves, for reads and for writes |
| JtagTasks.IrScan | tb/jtag_dmi/jtag_test.sv:52-65 | an instruction scan selects the instruction and disturbs no data register or request |
| JtagTasks.DataScan | tb/jtag_dmi/jtag_test.sv:67-101 | a data scan returns what was captured and updates with what was shifted in, the request machine running on meanwhile |
| JtagDriver.Driver.SetIr | tb/jtag_dmi/jtag_test.sv:52-65 | afterwards the cached and the real instruction are the one asked for, scanned only if the cache differed |
| JtagDriver.Driver.ReadWriteBits | tb/jtag_dmi/jtag_test.sv:91-101 | the loop drives exactly the pins of the bits and returns TDO bit by bit |
| JtagDriver.Driver.SoftReset | tb/jtag_dmi/jtag_test.sv:40-49 | from any state the TAP ends in Run-Test/Idle with IDCODE, cache included, and a cleared request machine |
| JtagDriver.Driver.GetIdcode | tb/jtag_dmi/jtag_test.sv:161-170 | returns the IDCODE, though it shifts one bit more than it reads |
| JtagDriver.Driver.WriteDmi | tb/jtag_dmi/jtag_test.sv:199-209 | from an idle, error-free module exactly this write is then offered, nothing having been sent before |
| JtagDriver.Driver.ReadDmi | tb/jtag_dmi/jtag_test.sv:211-235 | status 0 comes only with the module's Success answer to this very read |
| JtagDriver.Driver.ReadDmiExpBackoff | tb/jtag_dmi/jtag_test.sv:243-258 | with prompt Success answers the loop ends with the answer to this read after logarithmically many trials, even if an older read was in flight |
| JtagDmi.WriteIssues | src/dmi_jtag.sv:157-170 | the scan of a write word from an idle, error-free machine offers exactly that write |
| JtagDmi.OneWrite | src/dmi_jtag.sv:202-220 | through every pin sequence that does not clear the machine, further scans included, an offered write stays offered or is the first request sent, and the first answer is its own |
| JtagDmi.OneRequest | src/dmi_jtag.sv:157-220 | the same for any request, and all later requests are sent and answered in order, one at a time, none left out |
| JtagDmi.ReadTask | src/dmi_jtag.sv:172-200 | a read task that reads back status 0 has seen exactly its own read answered with Success and returns that data |
| JtagWrites.WriteStatus | src/dmi_jtag.sv:202-245 | the scan after a write shows status 0 if and only if the write was offered and is unanswered or answered with Success |
| JtagWrites.StatusMeansSuccess | src/dmi_jtag.sv:202-245 | so status 0 means Success if and only if the machine is done with the write by the capture |
| JtagWrites.TimelyStatus | src/dmi_jtag.sv:202-245 | which it is when the debugger waits twice the time the crossing takes |
| JtagWrites.StatusTooEarly | src/dmi_jtag.sv:236-241 | and need not be otherwise: with no room in the crossing the scan after any write shows status 0 and nothing has been sent |
| JtagWrites.WriteTask | src/dmi_jtag.sv:210-245 | status 0 in the status scan after that comes only with the Success answer to this very write, whatever the crossing |
| JtagWrites.OverrunIsReported | src/dmi_jtag.sv:230-235 | a request that meets one in flight is dropped and leaves the busy error; the one in flight is not touched |
| JtagDmi.ErrorSticks | src/dmi_jtag.sv:243-254 | an error is held until a clear or dmireset, and no request leaves Idle while it is |
| JtagDmi.CaptureIsFresh | src/dmi_jtag.sv:261-283 | for every pin sequence with orderly answers a DMI capture reloads the register, and status 0 after an accepted read comes with that read's data |
| JtagDmi.CaptureLoads | src/dmi_jtag.sv:266-275 | a capture loads the register whatever it held if and only if no failed operation is held or the machine is busy |
| JtagDmi.SettledByThen | src/dmi_jtag.sv:172-220 | with answers within l cycles the machine is idle after 2 l cycles, whatever it was doing |
| JtagDmi.OnlyAnswersMatter | src/dmi_jtag.sv:172-220 | two crossings that agree whenever the machine offers or waits drive it alike, so what is shown otherwise does not matter |
| DebugUnit.ReadReturnsRegister | src/dmi_cdc.sv:48-89 | the two clocks interleaved in any way, a read task whose second scan shows status 0 returns what the debug module registers answered to this very read since the first scan |
| DebugUnit.DataReadIsSettled | src/dm_csrs.sv:297-312 | for data0 and data1 status 0 moreover means that no command was running when the read was served, and the bits are the number its register held |
| DebugUnit.WriteReportsOutcome | src/dmi_cdc.sv:48-89 | a write and two status scans: status 0 in the second means that the registers have served this very write with Success |
| DebugUnit.ServedWriteLands | src/dm_csrs.sv:371-385 | a data register write served with Success found no command running and leaves the number written |
| DebugUnit.ServedTakesEffect | src/dmi_cdc.sv:48-89 | every request served in a run has had its effect on the registers in the cycle in which it was served |
| DebugUnit.ServedInOrder | src/dmi_cdc.sv:48-89 | in every run without a clear the registers serve exactly the requests sent, once each and in order, and the transport gets their answers, once each and in order |
| DebugUnit.WriteReachesRegisters | src/dmi_cdc.sv:48-89 | a write offered by the transport is the first request the registers serve from then on, and has been served once the transport is idle again |

## Left out

- RunControl.Tick: an eight-byte store over a 32-bit bus is one step of its hart, so other harts do not interleave between its two halves.
- Hart.Exec: only the instructions of the ROM and of generated words; pipelines, caches and memory outside the window are not modelled, and single-precision values in wider registers are boxed with ones.
- RunProgress.CommandBounded: commands with postexec have no bound, because program-buffer code may run for ever.
- RiscV.DecodeAuipc: the encoder lays its immediate out as a jump does; only the immediate zero, which is all the generator passes, is covered.
- Transfer.WordStep: half-precision floating-point loads and stores (aarsize 0 and 1 on an FPR) trap, as on a core without the Zfh extension.
- RunTheorems.CommandMeans: dmactive going to zero during a command is outside the runs considered; the reset itself is in the register step.
- SbaAtomic.RefinesAtomic: a 32-bit bus keeps no upper address half; a value written to sbaddress1 there is visible for one cycle in the registers but not in the atomic interface.
- JtagDriver.Driver.ReadDmiExpBackoff: the wait count is unbounded, not a 32-bit integer; sba_read_double, which composes these tasks, is not modelled.
- DmCsrs.Registers.Tick: sbcs shows its busy bit one cycle late, as the code does.
- Haltsum.HaltSummary: a bit read from a word that does not exist is None, not a four-valued X; a debugger read takes it as zero.
- DebugUnit.ReadReturnsRegister: what the harts and the bus report to the registers is arbitrary there, and a clear empties the crossing at once rather than by a handshake.
- The crossing's synchronisers, the response FIFO's internals, the bscane TAP, DFT multiplexing and TDO's negative-edge timing are replaced by the channel and queue described above.
- Trigger module, quick access, abstract memory access and authentication are not implemented by the unit.
- The OBI wrapper, assertions, testbench memories, boot ROM and scripts would only add plumbing.

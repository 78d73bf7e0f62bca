# A verified model of QuickerNesHawk's timing and media core

QuickerNesHawk steps a Nintendo Entertainment System and a Famicom Disk System cycle by cycle. This project
models the parts of it where state, timing and arithmetic meet, and proves what they keep and what they
compute, over all inputs and all runs.

`dafny verify dfyconfig.toml` checks everything. One module stands for one component: a module of values and
functions says what a step does and holds the theorems over runs; beside it, a module with a class (`...Unit`,
or a class in the same file) has the fields and methods of the original, each proved against those functions.

| files | component |
|---|---|
| `Bits`, `Crc`, `FdsFormat` | bits on a disk, the CRC (generator of section 2.2.7 of ITU-T X.25, reflected, zero preset, no complement), the formatter |
| `FdsDrive`, `FdsFlags`, `FdsRead`, `FdsSide`, `FdsWrite`, `FdsUnit` | the disk drive: motor, shift registers, its transfer flag and interrupt, what it reads, block by block and a whole side, and what it lays down |
| `FdsMedia`, `FdsAdapter`, `FdsLoss` | sides, differences between them and the image, save files, and how writes get lost |
| `Microcode`, `OpcodeMatrix`, `Mos6502`, `CpuInterrupts`, `CpuTiming`, `CpuUnit` | the 264 microcode rows, one CPU cycle, RDY, interrupts and branches, how long instructions take |
| `Dma`, `DmcRequests`, `DmaUnit` | OAM DMA and DMC DMA, how a DMC fetch begins, and the CPU cycle in which they share RDY |
| `ApuSequencer`, `ApuRegisters`, `ApuUnit` | the frame sequencer, its interrupt, what register writes do to them, and the short cut through the end of an APU cycle |
| `SpriteEval`, `SpriteUnit` | sprite evaluation, dot by dot |
| `PpuFrame` | the frame driver and the odd-frame skip |
| `OpenBus` | the PPU's open bus and its batched decay |
| `Mmc3`, `Mmc3Unit` | the scanline interrupt of the MMC3 |
| `Kernel`, `Resampler` | the band-limited resampler |
| `Savestate` | the traversal that saves, loads and measures |

## Findings

- The short cut of `APU::RunOneLast` is described as exact (source/nes.hpp:1284-1290). It is exact if and only if
  the interrupt outputs are in sync with the interrupt state and two marks are clear (`ApuSequencer.ShortCutExact`).
  The marks always are (`MarksClear`). The sync is lost in two ways only, and without them the machine with the short
  cut runs like the one without (`SyncedRun`): a frame interrupt is taken back with no DMC interrupt, as by reading
  $4015 (`AcknowledgeLosesSync`), or a reset finds the interrupt line up (`EventKeepsSync`). A next cycle that
  takes the short cut then leaves the line up where the whole body would drop it; runs from power-on that lead there
  are `ShortCutFails` and `ShortCutFailsAfterReset`.
- Putting a side into the drive without ejecting the one that is in it, which is what the Insert buttons do
  (waterbox/waterbox.cpp:465-469), keeps the latter's contents if and only if the difference recorded for it is up
  to date (`FdsMedia.SwapWithoutEject`). From a fresh adapter, put a side in, start the motor in write mode, let the
  head erase the first mark, and put a side in: the erasure is lost (`FdsLoss.LostBySwap`, and
  `LossesHappen` for an image of two different sides).
- Loading a save file applies the differences to whatever the drive holds, so the mounted side is restored if and
  only if it was as it had been put in (`FdsMedia.SaveRestoresMounted`); on a fresh adapter every side is
  (`SaveRestoresFresh`). The comment says that loading happens once (source/nesBoards.hpp:317); a second load of the
  same file undoes the first (`LoadedTwice`, and for a file that a run produces, `FdsLoss.LostByLoad`).
- A hard reset (source/nes.hpp:302-349) makes a new CPU and a new APU but leaves the console's four DMA fields alone.
  The invariant of the two DMAs survives it if and only if neither was under way (`Dma.PowerKeepsInv`); after one in
  the middle of a DMC fetch, the first store to $4014 halts the CPU for as long as the DMC is not used again
  (`Dma.PowerDuringFetch`; `HaltedForGood` is a whole run from power-on). The host has no such
  button (waterbox/waterbox.cpp:446-447).

## Model

| member | source | states |
|---|---|---|
| Crc.Ccitt8 | source/nesFds.hpp:88-92 | the loop feeds the eight bits of a byte to the register, low bit first |
| Crc.ZeroIffHeld | source/nesFds.hpp:79-85 | up to 16 further bits bring the register to zero exactly when they are all the register holds, so its own 16 bits, low first, give zero |
| Crc.ZeroIffTrailer | source/nesFds.hpp:88-92 | two further bytes bring the register to zero exactly when they are its low and high byte |
| Crc.FeedLinear | source/nesFds.hpp:79-85 | the CRC is linear: the register of an exclusive-or is the exclusive-or of the registers |
| Crc.FeedInjective | source/nesFds.hpp:79-85 | different registers stay different under the same input |
| Crc.BurstDetected | source/nesFds.hpp:79-92 | two bit strings that differ only within a window of 16 bits cannot both end at zero |
| Crc.RegisterIsRemainder | source/nesFds.hpp:79-85 | the register is what long division of the message, followed by sixteen zeroes, by x^16 + x^12 + x^5 + 1 leaves |
| Crc.PassesIffMultiple | source/nesFds.hpp:79-85 | a message brings the register to zero exactly when it is a multiple of that polynomial |
| FdsFormat.WriteBlock | source/nesFds.hpp:94-107 | the loops append gap, marker, data, and the CRC of marker and data, low byte first |
| FdsFormat.CheckSignature | source/nesFds.hpp:126-131 | accepts exactly the headers that begin with the fifteen signature bytes |
| FdsFormat.FixFiles | source/nesFds.hpp:140-150 | appends the encoded header and data of as many files as announced, or reports the truncation |
| FdsFormat.FixFdsSide | source/nesFds.hpp:111-154 | returns the parsed blocks encoded in order and cut or filled to 65500 bytes, or the error of the first block that is missing or wrong |
| FdsFormat.BlocksKeepInput | source/nesFds.hpp:111-151 | the payloads of the blocks, joined, are a prefix of the dump: nothing is skipped, doubled or reordered |
| FdsFormat.FilesKeepInput | source/nesFds.hpp:140-150 | the same for the repeating part of the dump |
| FdsFormat.DumpParses | source/nesFds.hpp:111-151 | a dump of a header, a file count and files, each with its size low byte first at offset 13 of its own header, is taken apart into exactly these blocks, with gaps of 3537 and 122 bytes, whatever comes behind |
| FdsFormat.FirstError | source/nesFds.hpp:111-151 | what a dump is refused for, first things first: too short for a header, another signature, too short for a file count, another block than that, too short for its files |
| FdsFormat.EncodedPlaced | source/nesFds.hpp:94-151 | each block stands whole at the sum of the encoded lengths before it |
| FdsFormat.BlockPlaced | source/nesFds.hpp:94-154 | a block that fits the side survives the resize, whole and in its place |
| FdsDrive.ApplyKeepsInv | source/nesFds.hpp:157-189 | every register access, cycle, insert and eject keeps the drive sound |
| FdsDrive.HeadOnDisk | source/nesFds.hpp:171-189 | over every history: spin-up or running implies a disk under the head, the head is before the announced size, and shift positions are below eight |
| FdsDrive.ReachesReset | source/nesFds.hpp:312-324 | a running drive that keeps its disk springs back within 56 cycles per bit left, whatever its registers are told |
| FdsDrive.ReachesIdle | source/nesFds.hpp:326-331 | a drive that springs back is idle at position 0 once its waiting cycles have passed |
| FdsDrive.SizeRoundTrip | source/nesFds.hpp:199-216 | the three size bytes of a difference give back the size |
| FdsDrive.PatchUndoesDiff | source/nesFds.hpp:197-225 | applying a drive's difference to the disk as it was put in gives the disk as it is |
| FdsFlags.TransferFlag | source/nesFds.hpp:231-272 | over every run the transfer flag is set exactly if, since $4024, $4030 or $4031 was last accessed, the last bit of a byte was read or written, or a write to $4025 started a write |
| FdsFlags.DiskIrq | source/nesFds.hpp:355-408 | over every run the interrupt is raised exactly if, since $4025, $4030 or $4031 was last accessed, the last bit of a byte was read or written with bit 7 of $4025 set |
| FdsFlags.ControlKept | source/nesFds.hpp:238-263 | every bit of $4025 but that of the CRC is the one last written |
| FdsFlags.FromPowerOn | source/nesFds.hpp:55-76 | from power-on nothing is left over: flag and interrupt are there exactly if the run has set them, and $4025 is what the run has written |
| FdsFlags.HeadMoves | source/nesFds.hpp:307-324 | the motor takes the head one bit on every 56 cycles, whether it reads, writes or passes a protected disk, or 5000 bits while transfers are reset, and no other bit of the disk changes; at the end it springs back |
| FdsFlags.ProtectedKept | source/nesFds.hpp:386-392 | over every run a protected disk stays as it is |
| FdsRead.GapThenBytes | source/nesFds.hpp:346-384 | after blanks and a marker exactly the following bytes reach the latch, and the CRC is that of marker and bytes |
| FdsRead.BlockTaken | source/nesFds.hpp:346-384 | a block delivers its payload and two CRC bytes and ends with a zero CRC exactly if these are right |
| FdsRead.ReadRun | source/nesFds.hpp:277-324 | a drive in read mode hands its port the bits under its head, one every 56 cycles, under any interleaving of status reads |
| FdsRead.ReadBlock | source/nesFds.hpp:277-384 | from anywhere in the gap before a block: its bytes are delivered, nothing else is, the CRC ends at zero exactly if the last two are right, and the disk is unchanged |
| FdsRead.FormattedBlock | source/nesFds.hpp:94-154 | on a formatted side every block that fits has a blank gap before its marker, payload and CRC |
| FdsRead.FormatThenRead | source/nesFds.hpp:94-384 | for every dump the formatter accepts and every block that fits: started in the gap, the drive delivers that payload and its CRC and ends with a zero CRC |
| FdsSide.MotorStarts | source/nesFds.hpp:256-340 | an idle drive told to start its motor in read mode stands at the start of its disk when the motor is up to speed |
| FdsSide.ReadingRun | source/nesFds.hpp:312-384 | in read mode the head goes on a bit every 56 cycles, whatever control values of read mode are written |
| FdsSide.VisitReads | source/nesFds.hpp:256-384 | after bit 6 is lowered and raised anywhere in the gap, a formatted block is delivered with its CRC, and the drive is at the start of the next |
| FdsSide.SideRead | source/nesFds.hpp:111-384 | format, start the motor, and visit block after block: all of them are delivered in order, each with its CRC and a zero CRC register, for every accepted dump and every such schedule |
| FdsSide.AllReadable | source/nesFds.hpp:111-384 | such a schedule exists for all leading blocks that fit the side |
| FdsWrite.WriteArmed | source/nesFds.hpp:256-269 | raising bit 6 in write mode loads the latch into the shift register and starts a fresh CRC |
| FdsWrite.RestOfByte | source/nesFds.hpp:386-431 | a byte goes out bit by bit whenever the register accesses come |
| FdsWrite.SendBytes | source/nesFds.hpp:237-431 | bytes stored to $4024 in time go out in order, and the CRC is theirs |
| FdsWrite.CrcTail | source/nesFds.hpp:407-423 | the two CRC bytes go out, low byte first, if and only if the CRC bit is set when the first is out or the latch happens to hold the second; software that keeps the bit always gets them, also when the CRC or its high byte is zero and the drive clears the bit early, and zeroes follow |
| FdsWrite.WriteRun | source/nesFds.hpp:312-431 | a drive in write mode lays down exactly the bits its port gives and changes nothing else |
| FdsWrite.BlockSent | source/nesFds.hpp:237-431 | a block sent through the registers leaves the port as marker, data and CRC |
| FdsWrite.BlockWritten | source/nesFds.hpp:237-431 | and is laid down so, wherever the head is; all other bits of the disk are as they were |
| FdsWrite.WriteThenRead | source/nesFds.hpp:237-432 | what was written is read back: the same data, its CRC, and a zero CRC register |
| FdsWrite.HarmlessRun | source/nesFds.hpp:256-334 | a drive that is told read mode or transfer reset and nothing else leaves the disk as it is, whatever its motor does |
| FdsWrite.ReadsBack | source/nesFds.hpp:237-432 | one drive writes a block, goes on without writing, and reads the block back once it is before it again in read mode |
| FdsUnit.DiskDrive.Eject | source/nesFds.hpp:171-176 | the drive is idle and empty |
| FdsUnit.DiskDrive.Insert | source/nesFds.hpp:179-189 | the side is copied and the head at its start, or, if the side is too small, nothing happens |
| FdsUnit.DiskDrive.InsertBrokenImage | source/nesFds.hpp:192-195 | what goes in is the formatted side, or nothing and the formatter's error |
| FdsUnit.DiskDrive.ApplyDiff | source/nesFds.hpp:197-208 | the loop patches the disk in place, or refuses a difference of another size |
| FdsUnit.DiskDrive.MakeDiff | source/nesFds.hpp:210-225 | the loop builds the difference between the disk and the disk as it was put in |
| FdsUnit.DiskDrive.Write4024 | source/nesFds.hpp:237-241 | the latch takes the byte and the transfer flag is acknowledged |
| FdsUnit.DiskDrive.Write4025 | source/nesFds.hpp:244-274 | the new state is the specified one, motor start and write start included |
| FdsUnit.DiskDrive.Read4030 | source/nesFds.hpp:277-290 | each bit of the answer has its meaning, and the flags are acknowledged |
| FdsUnit.DiskDrive.Read4031 | source/nesFds.hpp:293-299 | the latched byte is returned and the flags are acknowledged |
| FdsUnit.DiskDrive.Read4032 | source/nesFds.hpp:302-309 | bit 0 is clear exactly with a disk in the drive, bit 1 with the drive ready, bit 2 with a disk that may be written to, and the other bits are set |
| FdsUnit.DiskDrive.Clock | source/nesFds.hpp:312-343 | one cycle of the object, the disk array written in place, is one step of the specification |
| FdsUnit.DiskDrive.Read | source/nesFds.hpp:346-384 | the bit under the head goes to the port as specified |
| FdsUnit.DiskDrive.Write | source/nesFds.hpp:386-431 | the port's bit goes under the head, no other bit of the array changes, and a protected disk is left alone |
| FdsMedia.RecordingKeepsInv | source/nesBoards.hpp:292-295 | recording the mounted side keeps the adapter sound |
| FdsMedia.EjectedKeepsInv | source/nesBoards.hpp:280-288 | so does ejecting |
| FdsMedia.InsertedKeepsInv | source/nesBoards.hpp:345-353 | so does inserting; the drive then has the side with its recorded writes |
| FdsMedia.InsertsThatSide | source/nesBoards.hpp:345-353 | of an image that is sixteen bytes and sides of 65500 bytes joined, inserting side k puts side k into the drive, formatted, with every byte as it is or changed by what was recorded, for every k; or reports what is wrong with that side |
| FdsMedia.NoSuchSide | source/nesBoards.hpp:345-353 | a side that the image does not announce or does not have is refused |
| FdsMedia.NoImage | source/nesBoards.hpp:345-347 | without an image every side is refused |
| FdsMedia.RefusedHolds | source/nesBoards.hpp:348-353 | a side whose recorded difference has another size goes in as it is on the image, and the adapter goes on naming the one before it |
| FdsMedia.BoundsKept | source/nesBoards.hpp:280-353 | whatever differences were loaded, every action keeps the sizes that the adapter relies on |
| FdsMedia.DiffSound | source/nesBoards.hpp:280-288 | the recorded difference brings back the disk as it is |
| FdsMedia.DiffLayout | source/nesFds.hpp:207-221 | a difference begins with the size of a side in bits, highest byte first, and goes on with what was changed, byte by byte |
| FdsMedia.PerformKeepsContents | source/nesBoards.hpp:280-353 | whatever does not touch a side leaves its contents as they are |
| FdsMedia.SurvivesEject | source/nesBoards.hpp:280-353 | writes survive: after an eject and any actions on other sides, inserting the side restores its bytes |
| FdsMedia.UpToDateIff | source/nesFds.hpp:197-225 | the difference the drive would make equals the recorded one, or there is none of either, exactly when the recorded one leads from the original to the disk |
| FdsMedia.SwapWithoutEject | source/nesBoards.hpp:345-353 | without the eject they do if and only if the recorded difference is up to date |
| FdsMedia.ParseUndoesPrint | source/nesBoards.hpp:297-340 | parsing the printed differences gives them back, whatever they hold |
| FdsMedia.SaveFileParses | source/nesBoards.hpp:292-340 | a save file has the right header and side count, and parses to the recorded differences |
| FdsMedia.SaveFileLayout | source/nesBoards.hpp:298-313 | the save file is the letters FDSS, the number of sides and the differences, each with its length in front, numbers in four bytes, lowest first |
| FdsMedia.SaveRestores | source/nesBoards.hpp:292-343 | loading it into an adapter with the same image restores every side that is not mounted |
| FdsMedia.SaveRestoresMounted | source/nesBoards.hpp:341-342 | and the mounted side if and only if it is as it was put in |
| FdsMedia.LoadedTwice | source/nesBoards.hpp:341-342 | loading the same file twice leaves the disk in the drive as it was before; so a side that was as put in has its contents only if they are those of the image |
| FdsMedia.StoredKeepsInv | source/nesBoards.hpp:318-343 | a file of differences that a drive makes leaves the adapter sound, also when it is refused half way |
| FdsMedia.SaveRestoresFresh | source/nesBoards.hpp:292-343 | so every side on a fresh adapter |
| FdsLoss.Erases | source/nesFds.hpp:312-431 | a running drive in write mode whose bit 6 was never raised lays down zeroes, bit after bit |
| FdsLoss.MarkLost | source/nesFds.hpp:256-431 | so a side just put in loses its first mark if the motor is started in write mode |
| FdsLoss.LostBySwap | source/nesBoards.hpp:345-353 | for every image and two sides of it, from a fresh adapter: what that did to the one side is lost when the other goes in without an eject |
| FdsLoss.LostByLoad | source/nesBoards.hpp:318-343 | and its save file restores the side on a fresh adapter when loaded once, and does not when loaded twice |
| FdsLoss.LossesHappen | source/nesBoards.hpp:345-353 | there is an image, of two different sides, for which this happens |
| FdsAdapter.RamAdapter.Eject | source/nesBoards.hpp:280-288 | the object ejects as specified, recording first |
| FdsAdapter.RamAdapter.InsertSide | source/nesBoards.hpp:345-353 | inserts as specified; or reports the error and changes nothing; or, if the recorded difference has another size, reports that with the new side in the drive and the old one still named; of an image of joined sides it is the side asked for that goes in |
| FdsAdapter.RamAdapter.ReadSaveRam | source/nesBoards.hpp:292-315 | records the mounted side and returns the specified file |
| FdsAdapter.RamAdapter.StoreSaveRam | source/nesBoards.hpp:318-343 | loads as specified, for differences of any size, including what a refused file has changed by then |
| Microcode.RowSound | source/mos6502x.hpp:170-433 | in each of the 264 rows every micro-operation is one the dispatch knows, the row ends where one that ends it stands and only there, a skippable read is followed by one that reads and computes, one that stops for good stands alone, and no four in a row write |
| Microcode.FixedRows | source/mos6502x.hpp:426-433 | the rows for fetching and for interrupts begin with a micro-operation that waits for RDY |
| Microcode.WritesBounded | source/mos6502x.hpp:170-433 | from anywhere in a row at most three writes come before something that does not write |
| OpcodeMatrix.MatrixIsRegular | source/mos6502x.hpp:170-425 | the opcode map: in the columns of arithmetic, of instructions that modify memory, official and not, and of branches, three bits of the opcode name the address mode and three the operation |
| Mos6502.Descends | source/mos6502x.hpp:862-895 | where a micro-operation starts the dispatch over, it goes into a row, to one that starts it over fewer times |
| Mos6502.RetriedKept | source/mos6502x.hpp:3339-3600 | every dispatch succeeds, nests at most three deep, and ends in a row; with RDY low, anything but a write freezes the CPU and keeps its registers |
| Mos6502.CycleKept | source/mos6502x.hpp:3602-3619 | every cycle keeps the CPU in its row; it writes exactly if a write is next; otherwise RDY low parks it, and RDY high lets it go on unless an opcode has stopped it for good |
| Mos6502.ParkedStays | source/mos6502x.hpp:836-843 | a parked CPU with RDY low keeps opcode, index and registers and writes nothing |
| Mos6502.ResetInv | source/mos6502x.hpp:753-769 | power-on and the reset button lead to such a state, whatever the fields they do not set hold |
| Mos6502.NeverTraps | source/mos6502x.hpp:3339-3619 | over every run from there, for all memory, all levels of RDY, IRQ and NMI and all resets: no trap, no access outside a row, nesting at most three |
| Mos6502.LowRdyFreezes | source/mos6502x.hpp:836-843 | with RDY held low the writes that are next, at most three, still happen, and the cycle after them freezes the CPU |
| Mos6502.StaysFrozen | source/mos6502x.hpp:836-843 | from then on opcode, index, A, X, Y, S and PC are unchanged and nothing is written for as long as RDY is low |
| Mos6502.NoNewJam | source/mos6502x.hpp:170-433 | a write, or a cycle with RDY low, does not lead to an opcode that stops the CPU for good |
| CpuInterrupts.InstructionEnds | source/mos6502x.hpp:862-920 | the end of an instruction with RDY high: the NMI sequence exactly if NMI is up, and NMI is used up; the IRQ sequence exactly if IRQ is up, the I flag is clear and NMI is down; otherwise the byte that memory answers is the next opcode; and that anyway after a branch that hides interrupts |
| CpuInterrupts.InstructionEndsLow | source/mos6502x.hpp:862-920 | with RDY low the same is decided, and waits |
| CpuInterrupts.FetchesAnyway | source/mos6502x.hpp:3313-3319 | at the end of an interrupt sequence the next opcode is fetched whatever the lines are |
| CpuInterrupts.StoreHappens | source/mos6502x.hpp:930-943 | a store happens whatever RDY says |
| CpuInterrupts.Starts | source/mos6502x.hpp:753-769 | power-on clears the registers and the flags, the reset button masks IRQs and changes no other register, and both start the reset sequence |
| CpuInterrupts.ChangeOfIIsLate | source/mos6502x.hpp:1124-1146 | CLI, SEI and PLP: the cycle that ends them takes an IRQ or not by the I flag from before, and an instruction that follows has the new one |
| CpuInterrupts.BranchByFlag | source/mos6502x.hpp:1476-1538 | each of the eight branches is taken exactly if its flag says so |
| CpuInterrupts.OffsetIsAdded | source/mos6502x.hpp:1540-1565 | a branch that is taken adds its offset to the low byte of PC; a carry costs another cycle |
| CpuInterrupts.BranchDelaysInterrupt | source/mos6502x.hpp:1557-1561 | an interrupt that comes up in the last cycle of a branch taken within its page waits for the end of the next instruction; one that was there before is taken |
| CpuInterrupts.CarryCosts | source/mos6502x.hpp:2775-2792 | an indexed read takes one cycle more exactly if the index carries into the high byte |
| CpuInterrupts.InterruptPushes | source/mos6502x.hpp:946-968 | BRK, NMI and IRQ push the flags whatever RDY says; B tells BRK from the others, and from then on IRQs are masked |
| CpuInterrupts.VectorIsRead | source/mos6502x.hpp:990-1013 | in every sequence an NMI takes over exactly where the vector is that of BRK and IRQ, and is used up by that |
| CpuInterrupts.VectorIsPicked | source/mos6502x.hpp:990-1013 | the vector is that of the NMI for an NMI, and for a BRK or an IRQ that an NMI has come up behind, which uses it up; otherwise that of IRQ |
| CpuTiming.InstructionTakes | source/mos6502x.hpp:3602-3619 | with RDY high an instruction whose row is straight takes exactly as many cycles as its row is long; the last fetches the next opcode or begins the interrupt taken instead |
| CpuTiming.OpcodeCycles | source/mos6502x.hpp:170-425 | every opcode's row is as long as its addressing mode and kind take cycles on a 6502, writes in exactly the cycles it should, and is straight unless it is a branch, BRK or an indexed read that may skip a cycle |
| CpuUnit.MOS6502X.constructor | source/mos6502x.hpp:753-761 | power-on |
| CpuUnit.MOS6502X.NESSoftReset | source/mos6502x.hpp:763-769 | the reset button |
| CpuUnit.MOS6502X.ExecuteOne | source/mos6502x.hpp:3602-3619 | one cycle of the object is one of the specification and never fails |
| CpuUnit.MOS6502X.ExecuteOneRetry | source/mos6502x.hpp:3339-3600 | the re-entrant dispatch ends, and does what the specification says |
| CpuUnit.MOS6502X.CheckInterrupts | source/mos6502x.hpp:862-895 | Fetch1: NMI before IRQ, neither after a taken branch that hides them |
| CpuUnit.MOS6502X.Next | source/mos6502x.hpp:3305-3327 | the three ways an instruction ends |
| CpuUnit.MOS6502X.ReadIfCarry | source/mos6502x.hpp:1285-1302 | a page crossing costs a cycle, otherwise the next stage happens at once |
| CpuUnit.MOS6502X.PickVector | source/mos6502x.hpp:990-1006 | an NMI takes over a BRK or IRQ on its way |
| CpuUnit.MOS6502X.TakeBranch | source/mos6502x.hpp:1524-1538 | a branch that is taken goes on in another row |
| CpuUnit.MOS6502X.AddOffset | source/mos6502x.hpp:1540-1565 | a carry goes on in a third row; without one and without an interrupt pending, interrupts are put off |
| Dma.ShortCutExact | source/nes.hpp:1166-1176 | the quiescent path of the DMC unit equals the whole body |
| Dma.RatesEven | source/nesApu.hpp:27-28 | all timer periods are even, so the timer alternates its parity for ever |
| Dma.RunDmcKept | source/nes.hpp:1164-1245 | a cycle of the DMC flips the timer's parity, leaves a fetch alone that is under way, and otherwise starts at most one |
| Dma.PowerOnInv | source/nesApu.hpp:544-557 | the invariant holds at power-on, NTSC and PAL |
| Dma.CallKept | source/nes.hpp:456-579 | every CPU cycle of the console keeps it: RDY is low exactly while a DMA is under way, the countdown is -1, 1, 2 or 3, and at 1 the CPU is frozen |
| Dma.CpuFacts | source/nes.hpp:505-509 | with RDY low the CPU finishes its writes and freezes; in the last cycle of a fetch it writes nothing |
| Dma.FetchCall | source/nes.hpp:498-539 | a fetch is due in exactly as many cycles as `CallsToFetch` says, and each cycle is one less, despite the extension by two |
| Dma.DmcCompletes | source/nes.hpp:498-539 | so whatever happens, the DMC fetches in exactly that cycle and in none before; from a countdown of 3 in the third, fifth or seventh |
| Dma.DirectStart | source/nes.hpp:1191-1209 | a fetch for a buffer that ran empty takes three or five |
| Dma.WriteStartsEven | source/nes.hpp:1211-1243 | a fetch that a register write asks for starts counting down with an even timer, whatever the parity was when it was asked for |
| DmcRequests.RequestCycle | source/nes.hpp:1188-1227 | a cycle that finds the buffer empty and something to fetch: the glitch fills the buffer and is used up; after a register write the fetch waits until the timer is even; the other glitch starts one that is cancelled; otherwise one begins, RDY low, with three to count |
| DmcRequests.WaitCycle | source/nes.hpp:1229-1244 | a fetch that waits starts counting when its wait is over, with an even timer, and nothing else starts |
| DmcRequests.CancelledFetch | source/nes.hpp:548-556 | the cancelled fetch halts the CPU for one cycle, unless it writes, and leaves no trace |
| DmcRequests.TimerCycle | source/nes.hpp:1164-1186 | the timer and the output unit go on in every cycle, whatever the two DMAs do |
| DmcRequests.FetchGlitches | source/nes.hpp:514-534 | the fetch fills the buffer if there is something to fetch, and leaves a glitch exactly two cycles, or with one byte left four cycles, before the buffer is emptied |
| Dma.FetchFills | source/nes.hpp:1247-1274 | a fetch fills the sample buffer unless the output unit empties it in the same cycle |
| Dma.Released | source/nes.hpp:575-578 | after every cycle RDY is high exactly if neither DMA is under way |
| Dma.CpuGoesOn | source/nes.hpp:575-578 | with RDY high and no DMC fetch under way or beginning, the CPU is not frozen, unless an opcode has stopped it for good |
| Dma.FetchReleases | source/nes.hpp:514-519 | a fetch that fills the buffer gives the CPU back, unless and only unless the OAM DMA needs it |
| Dma.CallUnjammed | source/nes.hpp:456-579 | a store, or a cycle with RDY low, leaves the CPU at an operation that does not stop it |
| Dma.OamBegins | source/nes.hpp:689-713 | a store to $4014 starts a transfer of its page, with one or two cycles to wait by the timer's parity |
| Dma.OamCallStep | source/nes.hpp:462-487 | each cycle does the next operation of the transfer, or waits for the DMC or the alignment |
| Dma.OamWhole | source/nes.hpp:462-487 | without another store to $4014: 256 pairs in order, each byte of the page read and stored to $2004, all reads on one parity of the timer, all stores on the other |
| Dma.OamEnds | source/nes.hpp:462-519 | the transfer ends: from its start in at most 1542 cycles, however often the DMC fetches |
| Dma.OamDuration | source/nes.hpp:462-519 | it takes its wait, 512 cycles, and exactly two for each DMC fetch whose last cycle falls into it |
| Dma.OamCompletes | source/nes.hpp:462-519 | so any 1542 cycles after a store to $4014 with no other contain the whole transfer, in order and of exactly that length; after it RDY is high exactly if no DMC fetch is under way, and the next cycle does not find the CPU frozen unless one begins |
| Dma.PhaseCall | source/nesApu.hpp:590-633 | whatever the two DMAs do, every cycle brings the output unit one cycle nearer to emptying the sample buffer, which stays filled until then and is empty after, unless and only if the fill glitch strikes |
| Dma.EveryEighthEmpties | source/nesApu.hpp:590-633 | with the rate left alone that is in exactly the named cycle, and from then on every eight periods of the timer; the buffer is empty then, unless and only if the glitch fills it in that cycle |
| Dma.ButtonKept | source/nesApu.hpp:892-916 | the reset button keeps the invariant of the two DMAs, at any moment |
| Dma.ButtonOnly | source/nesApu.hpp:892-916 | the reset button touches nothing of the two DMAs but what is left to fetch and the two glitches, and sends the CPU into its reset sequence |
| Dma.AlwaysSound | source/nes.hpp:391-579 | so over every run of cycles and resets from power-on RDY is low exactly while a DMA is under way, and the last cycle of a fetch finds the CPU frozen |
| Dma.PowerKeepsInv | source/nes.hpp:302-349 | a hard reset keeps it if and only if neither DMA is under way |
| Dma.PowerDuringFetch | source/nes.hpp:302-349 | after one during a DMC fetch, as long as the DMC is not used, the first store to $4014 leaves RDY low for ever |
| Dma.HaltedForGood | source/nes.hpp:302-349 | from power-on: two cycles until a fetch is under way, a hard reset, the reset sequence and STA $4014 leave RDY low, whatever happens after that without a sample |
| DmaUnit.DMCUnit.Run | source/nes.hpp:1164-1245 | the object's cycle, short cut included, is the whole body, and says whether RDY is pulled |
| DmaUnit.DMCUnit.Clock | source/nesApu.hpp:622-632 | the object's clock of the output unit is the specified one |
| DmaUnit.Console.RunCpuOne | source/nes.hpp:456-579 | one CPU cycle of the object is one of the specification and keeps the invariant; it leaves RDY high exactly if neither DMA is under way |
| DmaUnit.Console.StepOam | source/nes.hpp:462-487 | the OAM DMA's part of it |
| DmaUnit.Console.StepDmc | source/nes.hpp:498-539 | the DMC's part of it |
| DmaUnit.Console.PressReset | source/nes.hpp:391-396 | the reset button does to the CPU and the DMC what is specified, and keeps the invariant |
| ApuSequencer.ShortCutExact | source/nes.hpp:1284-1301 | the short cut equals the whole body if and only if the interrupt outputs are in sync and neither mark is set |
| ApuSequencer.MarksClear | source/nes.hpp:1330-1381 | neither mark is ever set between cycles |
| ApuSequencer.SyncAfter | source/nes.hpp:1389-1399 | the whole body leaves the outputs in sync unless its last statement takes a frame interrupt back and the DMC has none |
| ApuSequencer.AcknowledgeLosesSync | source/nes.hpp:1303-1399 | in a cycle with nothing else due: exactly when a frame interrupt without a DMC interrupt is acknowledged |
| ApuSequencer.StaysAsserted | source/nes.hpp:1284-1399 | after such an acknowledgement the short cut keeps the interrupt line up and the whole body drops it |
| ApuSequencer.Approach | source/nesApu.hpp:805-829 | three cycles from the frame interrupt, whatever the timer: flag, countdown and interrupt, in sync, and nothing else changed |
| ApuSequencer.StillRun | source/nes.hpp:1284-1402 | with nothing pending and no frame interrupt near, a run of cycles changes the sequencer and nothing else |
| ApuSequencer.NearlyThereIsReached | source/nesApu.hpp:918-931 | from power-on as many cycles as it takes lead to three cycles before the frame interrupt |
| ApuSequencer.InterruptIsReached | source/nesApu.hpp:805-872 | so over every run of cycles from power-on the frame interrupt comes and waits |
| ApuSequencer.ShortCutFails | source/nes.hpp:1284-1399 | and after a read of $4015 and one more cycle the short cut leaves the interrupt line up where the whole body drops it |
| ApuSequencer.EventKeepsSync | source/nes.hpp:302-349 | of what happens between cycles only a soft or hard reset that finds the line up loses the sync |
| ApuSequencer.ShortCutFailsAfterReset | source/nesApu.hpp:892-916 | let the frame interrupt come and press reset: the short cut leaves the line up where the whole body drops it |
| ApuSequencer.RunExact | source/nes.hpp:1284-1402 | over every run the machine with the short cut goes through the same states as the machine without it if and only if it is in sync whenever it takes the short cut |
| ApuSequencer.SyncedRun | source/nes.hpp:1284-1402 | as it is when no reset finds the line up and no frame interrupt is taken back without one of the DMC's |
| ApuSequencer.CycleFrame | source/nes.hpp:1379-1380 | each cycle ticks the sequencer once, or starts it over when a $4017 write takes effect, short cut or not |
| ApuSequencer.DoneOk | source/nesApu.hpp:770-931 | every cycle, register access and reset keeps it so: the counter lies between the previous entry of its table and the next, and the step inside the table |
| ApuSequencer.RunTicks | source/nes.hpp:1282-1400 | without $4017 writes everything else that happens leaves the sequencer to tick once a cycle |
| ApuSequencer.Accounting | source/nesApu.hpp:805-872 | after n ticks the counter is n modulo the period, and the quarter-frame and half-frame clocks are four and two for each whole period and those due in the last, both modes, NTSC and PAL |
| ApuSequencer.NoFrameInterrupt | source/nesApu.hpp:805-862 | in the five-step mode, or with interrupts inhibited, no run without a $4017 write sets the flag or raises the frame interrupt |
| ApuSequencer.WriteWaits | source/nesApu.hpp:770-803 | while a $4017 write is on its way the sequencer ticks on, whatever else happens to the APU |
| ApuSequencer.WriteTakesEffect | source/nesApu.hpp:770-803 | it takes effect in the third or fourth cycle, always one with an even timer, with any other accesses in between: bit 7 is the mode, bit 6 inhibits and clears the flag, and the sequencer starts over |
| ApuSequencer.SampleEnds | source/nes.hpp:1332-1347 | a sample that is read raises the DMC interrupt, if it does, in the third cycle after it and not before |
| ApuRegisters.RegistersHold | source/nes.hpp:1305-1392 | over every run from power-on, in terms of the events alone: which write waits and when it reaches its register, when a sample ends, the value of $4017, the strobe; and the DMC interrupt is raised exactly if a sample has raised it and no reset, and no write to $4015, or to $4010 with bit 7 clear, has reached the APU since |
| ApuRegisters.FlagCycle | source/nesApu.hpp:806-851 | the flag of $4015 is set in each of the last three cycles of the four-step sequence unless inhibited; a read takes it back in a cycle with an even timer, and so does a write to $4017 with bit 6 set when it takes effect |
| ApuRegisters.RestartClocks | source/nesApu.hpp:770-803 | a write to $4017 that takes effect with bit 7 set clocks everything at once, exactly if the tick of that cycle clocks nothing |
| ApuRegisters.ResetStarts | source/nesApu.hpp:892-916 | the reset button starts the sequencer over in the mode last written to $4017 and leaves no interrupt |
| ApuRegisters.LengthClockForeseen | source/nes.hpp:1323-1329 | over every run from power-on the two counts that writes are checked against name exactly the cycles in which the length counters are clocked |
| ApuUnit.APU.constructor | source/nesApu.hpp:918-931 | the object starts in the state at power-on: counter at 2, in step and in sync |
| ApuUnit.APU.Tick | source/nesApu.hpp:805-830 | the object's tick with its half frames and flags is the specified one |
| ApuUnit.APU.SequencerCheck | source/nesApu.hpp:837-872 | a step that is reached clocks what its mode says and goes on or starts over |
| ApuUnit.APU.WriteTick | source/nesApu.hpp:770-803 | a $4017 write takes effect when its delay is over |
| ApuUnit.APU.RunOneLast | source/nes.hpp:1282-1402 | the end of a cycle, short cut included, is the specified one and keeps the counter in its step |
| ApuUnit.APU.NESSoftReset | source/nesApu.hpp:892-916 | a reset starts the sequencer over in the mode last written |
| SpriteEval.Passed | source/nes.hpp:1799-1804 | a sprite that is not in range takes two dots and leaves the slot free, and the next is looked at from its start |
| SpriteEval.Copied | source/nes.hpp:1758-1798 | a sprite in range is copied in eight dots, from whatever byte the scan is at, and reported as sprite zero exactly if it is at OAMADDR in its second dot |
| SpriteEval.CutEnds | source/nes.hpp:1747-1797 | one that begins in the last three bytes of OAM is copied as far as OAM goes, and its slot is not counted |
| SpriteEval.SettledTurn | source/nes.hpp:1806-1851 | past the last sprite, or with all slots taken, secondary OAM does not change any more |
| SpriteEval.ScanFrom | source/nes.hpp:1741-1852 | the scan from any byte of any sprite on finds what is in range, as many as there are slots, and ends in time |
| SpriteEval.EvaluationIsFilter | source/nes.hpp:1673-2008 | for every OAMADDR and all levels of the rendering enable, with OAMADDR going up at each fall from dot 63 on: after dot 255 the slots hold the first eight sprites that the scan finds, no other slot holds anything in range, sprite zero is reported exactly if one is found at what OAMADDR is in that dot, and with fewer than eight the overflow flag is as it was |
| SpriteEval.PicksInRange | source/nes.hpp:1741-1852 | from the start of a sprite on, what the scan finds are the sprites in range, each in the dot that follows from how many come before it |
| SpriteEval.SpritesInOrder | source/nes.hpp:1673-2008 | with OAMADDR at a sprite and no fall at dot 63 the slots hold, in the order of OAM, the first eight sprites that show on the line, that is, on the 8 or 16 lines below the one their first byte names; with at most three falls after that sprite zero is reported exactly if it shows and none is at dot 64 |
| SpriteEval.ByteSeen | source/nes.hpp:1731-1860 | the byte a read of $2004 finds: OAM in even dots; in odd dots, once the scan is over or secondary OAM is full, secondary OAM |
| SpriteEval.FullScan | source/nes.hpp:1806-1844 | with all slots taken and rendering on, the glitchy scan sets the flag exactly if a byte on the diagonal (byte 0 of the next sprite, byte 1 of the one after, and so on) is in range |
| SpriteEval.OverflowIs | source/nes.hpp:1673-2008 | for every OAMADDR and all levels the overflow flag is set after a line exactly if it was, or a sprite takes the eighth slot and one of the bytes that the scan looks at after that is in range while rendering is on |
| SpriteEval.OverflowIsDiagonal | source/nes.hpp:1673-2008 | with rendering on, for every OAMADDR, the overflow flag is set after a line exactly if it was set, or the scan finds eight sprites and the diagonal behind the eighth has a byte in range |
| SpriteUnit.SpriteScanner.Tick | source/nes.hpp:1719-2008 | a dot of the object, secondary OAM and OAMADDR changed in place, is a dot of the specification |
| SpriteUnit.SpriteScanner.EvaluateLine | source/nes.hpp:1673-2008 | the 256 dots of a line compute that filter and that overflow flag, and leave OAMADDR as many higher as there were falls |
| PpuFrame.PPU.RunPpu | source/nes.hpp:1466-1486 | a dot; the CPU cycles times three and the step counter add up to the dots |
| PpuFrame.PPU.RunVbl | source/nes.hpp:419-422 | the vertical blank ends, after its lines, and flips the frame's parity |
| PpuFrame.PPU.RunActive | source/nes.hpp:425-428 | the visible lines end after 341 dots each, one fewer exactly if the skip applies |
| PpuFrame.PPU.RunPreVbl | source/nes.hpp:431-434 | the lines before the vertical blank end |
| PpuFrame.PPU.RunDead | source/nes.hpp:409-415 | a dead frame ends after 241 lines less four dots |
| PpuFrame.PPU.FrameAdvance | source/nes.hpp:381-435 | every frame ends; a live one has 341 dots for each of its lines, one fewer exactly if the region skips, the frame's parity is odd and rendering is on at dot 339 of the first line |
| PpuFrame.PPU.Play | source/nes.hpp:381-435 | over any number of frames the dots add up, and there is a CPU cycle for every three |
| PpuFrame.ElapsedRendering | source/nes.hpp:2359-2364 | with rendering on, every second frame of a region that skips is one dot short |
| PpuFrame.ElapsedWhole | source/nes.hpp:2359-2364 | without the skip or without rendering every frame is whole |
| PpuFrame.FrameOfRegion | source/nesPpu.hpp:69-82 | a frame has 89342 dots, with the longer blanking of PAL and Dendy 106392; NTSC alone drops one, if rendering is on at dot 7159 of a frame that begins with the mark clear |
| OpenBus.FadeBitwise | source/nesPpu.hpp:662-668 | after n cycles without access a bit is still there exactly if its timer was at least n |
| OpenBus.AccessBits | source/nesPpu.hpp:436-452 | bit by bit: $2002 reads the blank in bit 7, the hit in bit 6, the overflow in bit 5 and the bus below, a palette read the colour in six bits and the bus above; a timer restarts exactly if its bit is driven |
| OpenBus.SilentAtFirst | source/nesPpu.hpp:147-148 | at power-on the bus reads zero, and stays so until it is driven |
| OpenBus.PpuBus.ValueIsExact | source/nesPpu.hpp:662-669 | before its deadline the batched bus has the value of the machine that fades every cycle |
| OpenBus.PpuBus.RecomputeDecayCheck | source/nesPpu.hpp:671-677 | the deadline is one more than the smallest timer |
| OpenBus.PpuBus.SettleBit | source/nesPpu.hpp:685-702 | the inner loop ends and does k steps of one timer in jumps |
| OpenBus.PpuBus.Flush | source/nesPpu.hpp:679-707 | nothing is owed any more, and value and timers are those of the per-cycle machine |
| OpenBus.PpuBus.PpuOpenBusDecay | source/nesPpu.hpp:709-738 | each of the four actions does to the exact machine what it says |
| OpenBus.PpuBus.AccessReg | source/nes.hpp:1588-1616 | a register access reads from the exact bus and drives it |
| OpenBus.PpuBus.Cycles | source/nes.hpp:1486-1489 | for every schedule, with any number of accesses in each cycle, all answers, and the bus at every moment, are those of the per-cycle machine |
| OpenBus.CyclesBounded | source/nesPpu.hpp:679-738 | over every schedule the timers stay within their restart value, if they start there |
| OpenBus.AlwaysBounded | source/nesPpu.hpp:679-738 | as they do at power-on; so they fit their words, which is what `Savestate.SaveThenLoad` asks of them |
| Mmc3.Tracked | source/nesBoards.hpp:659-671 | the two counters hold the dots since the last rise of A12, and since the last that counted, up to their limits |
| Mmc3.ClockedFiveDotsAfter | source/nesBoards.hpp:707-724 | the counter is clocked in exactly the fifth dot after each rise that no other precedes by fewer than fifteen, and in no other |
| Mmc3.EveryReload | source/nesBoards.hpp:727-743 | from zero with reload N the counter is zero exactly after every (N+1)-th clock, and the interrupt is pending from the first of them on |
| Mmc3.ClearedTwoDotsLater | source/nesBoards.hpp:666-672 | a write to $C001 zeroes the counter in the second dot after it, not before |
| Mmc3.RegistersHold | source/nesBoards.hpp:844-858 | over every run of a new unit, in terms of the events alone: the reload value is the last one written to $C000; the counter counts clocks and writes to $C001; the interrupt is pending exactly if, since the last write to $E000, a clock left the counter at zero while the last of the writes to $E000 and $E001 was to $E001; the line is what is pending |
| Mmc3Unit.MMC3.AddressPpu | source/nesBoards.hpp:707-724 | the edge filter of the object |
| Mmc3Unit.MMC3.ClockPpu | source/nesBoards.hpp:659-672 | a dot of the object |
| Mmc3Unit.MMC3.ClockMmc3Irq | source/nesBoards.hpp:727-743 | a clock of the counter |
| Mmc3Unit.MMC3.WriteMmc3 | source/nesBoards.hpp:844-858 | the writes that concern the interrupt; what they mean over a run is `Mmc3.RegistersHold` |
| Mmc3Unit.MMC3.Play | source/nesBoards.hpp:659-743 | a run of the object is a run of the specification |
| Kernel.RowSum | waterbox/audioKernel.hpp:20-54 | every row of the kernel sums to one unit |
| Resampler.StepAdded | waterbox/audioResampler.hpp:84-91 | adding a step's taps to the buffer is adding it to the unbounded line; what was read or integrated before does not change |
| Resampler.MovedDown | waterbox/audioResampler.hpp:122-128 | moving the buffer down by the samples that were read moves its window on the line |
| Resampler.LineConcat | waterbox/audioResampler.hpp:75-92 | the order of the steps does not matter |
| Resampler.CutFrame | waterbox/audioResampler.hpp:93-98 | cutting a frame in two at any clock changes nothing the samples depend on |
| Resampler.BandLimitedResampler.AddDelta | waterbox/audioResampler.hpp:75-92 | the buffer, changed in place, remains the window of the line of all steps |
| Resampler.BandLimitedResampler.EndFrame | waterbox/audioResampler.hpp:95-98 | the clock advances, fraction included |
| Resampler.BandLimitedResampler.ReadSamples | waterbox/audioResampler.hpp:107-129 | the samples that are read are the next ones of the line, integrated once, as many as are available and wanted |
| Resampler.BandLimitedResampler.PlayFrames | waterbox/audioResampler.hpp:75-129 | frame after frame the samples depend on the clocks of the steps since the start alone, not on the framing |
| Resampler.IntegratorBounded | waterbox/audioResampler.hpp:114-116 | samples of the line within B keep the integrator within 511 B |
| Resampler.SilenceIsReached | waterbox/audioResampler.hpp:114-116 | on silence it comes to rest between 0 and 511, and the sample is 0, within as many samples as its distance from zero |
| Resampler.StaysAtRest | waterbox/audioResampler.hpp:114-116 | and stays there |
| Resampler.TapsSum | waterbox/audioResampler.hpp:82-90 | the sixteen interpolated taps of every position sum to between 65521 and 65536 |
| Resampler.TapBetween | waterbox/audioResampler.hpp:82-90 | a tap starts from the kernel row of its phase and is the straight line to the next row, rounded down |
| Resampler.SampleIsWord | waterbox/audioResampler.hpp:113-119 | a sample is the integrator and the line in units of 65536, rounded down, within sixteen bits, and otherwise the nearest bound |
| Savestate.WordRoundTrip | source/nesSerialization.hpp:426-429 | a length word gives back the length |
| Savestate.ItemLayout | source/nesSerialization.hpp:426-432 | a field of fixed length has nothing around it; a buffer and a list have their length before them, in four bytes, lowest first |
| Savestate.StateSaver.SyncAll | source/nesSerialization.hpp:27-53 | writes, or only counts, the encoding of the fields in order |
| Savestate.StateSaver.SyncMany | source/nesSerialization.hpp:488-493 | writes the buffers of a list, each with its length |
| Savestate.StateLoader.SyncAll | source/nesSerialization.hpp:55-82 | reads back fields of the known kinds, and exactly their bytes |
| Savestate.StateLoader.SyncMany | source/nesSerialization.hpp:488-493 | reads back a list of buffers of any number and lengths |
| Savestate.Machine.Save | source/nesSerialization.hpp:510-564 | settles what the open bus is owed, changes nothing else, and writes the encoding of all visited fields |
| Savestate.Machine.StateSize | source/nesSerialization.hpp:566-571 | the measured size is the size of that encoding |
| Savestate.Machine.Load | source/nesSerialization.hpp:510-564 | over any machine of the same cartridge every visited field becomes the saved one, exactly those bytes are read, and the batching of the open bus is sound, whatever it was owed |
| Savestate.SaveThenLoad | source/nesSerialization.hpp:27-82 | so save and load copy one machine's visited fields into another, and leave the fields alone that are not visited |

## Left out

- Mos6502.CycleKept: the results of the arithmetic, the addresses of stores and the bytes from memory are arbitrary, so the theorems hold whatever they are; only control, flags that control depends on, and interrupts are exact.
- Mos6502.NeverTraps: `address_bus`, and the micro-operations that occur in no row, are not modelled, except the one that the dispatch has no case for.
- Dma.CallKept: register writes reach the DMC as arbitrary new values of length, period and two flags at the end of a cycle; the bytes and the conflicts of its reads are not modelled; a hard reset is not one of the events, since it does not keep the invariant (`PowerKeepsInv`).
- Dma.OamWhole: a store to $4014 during a transfer starts it over and is treated as the start of another one.
- ApuSequencer.RunTicks: length counters, envelopes and sweeps appear as the number of their clocks only; whether the end of a sample raises the DMC's interrupt is an input.
- SpriteEval.EvaluationIsFilter: of register writes during a line only those to $2001 are modelled, as levels of the rendering enable; writes to $2000, $2003 and $2004 are not, nor the return of OAMADDR to zero after dot 256. The copy of eight bytes at the start of a frame is not part of it.
- PpuFrame.PPU.FrameAdvance: whether rendering is on is an arbitrary function of the dot; fetches, pixels and flags are not modelled. The code runs three dots for each CPU cycle in every region.
- Resampler.BandLimitedResampler.PlayFrames: requires that no frame is longer than the buffer; a step beyond it is dropped, which `AddDelta` states. Integers are unbounded.
- FdsDrive.HeadOnDisk: a side of announced size zero has no position below its size.
- FdsRead.FormatThenRead: no control write happens between the gap and the end of the block; nor within a block in `FdsSide.SideRead`.
- FdsUnit.DiskDrive.ApplyDiff: a difference of the size of the disk that is shorter than that, or that is applied with no disk in the drive, reads out of bounds in the original and is not modelled.
- FdsAdapter.RamAdapter.StoreSaveRam: the difference for the mounted side must be as long as it says, for the same reason.
- FdsAdapter.RamAdapter.InsertSide: the difference recorded for the side must be as long as it says, for the same reason; sides are not negative.
- Savestate.Machine.Load: a buffer that no save produced is not modelled, since the original trusts it; WRAM and one bank register are not visited by the original and are left as they are.
- Mmc3.EveryReload: the older chip revision, which the original has switched off, is not modelled.
- Headerless disk images, the RAM adapter's timer and sound, the cartridge boards without timing (NROM, UxROM, CNROM, AxROM, GxROM, B74x) and the serial port of MMC1: they would add easy members only.
- Pixels, palettes, the audio mixer in floating point, controllers and the host interface.

# Nematod: a verified model

Nematod emulates the NES. This project models its core machinery in Dafny and proves what
that machinery is for:

- **The picture.** The PPU draws with shifters, latches, prefetched tiles and a packed scroll
  register (`ppu/src/ppu.cpp`). `Picture` defines the frame as a random-access function of
  video memory, OAM, palette and registers; `Ppu` runs the pipeline step by step. Every pixel
  of a frame, both sprite flags and the length of every line agree with the reference, also when
  a program rewrites memory and registers between the lines.
- **Coroutines.** Emulated chips take turns on one stack whose live bytes are copied out and in
  (`external/libaco/aco.c`). `SharedStack` proves that, whatever the interleaving, each
  coroutine finds the bytes it would have found on a stack of its own. `Stepper` treats skipped
  resumptions and divided clocks, `Console` the frame loop: it always ends, a reset in any state
  leads to a steady one, and from there each call counts exactly one frame, a tick short exactly
  when the frame is odd and rendering is enabled in the one tick that decides.
- **Address decoding and banking.** `AddressSpace` models the buses, and `BusHistory` proves
  whole runs of one, in which ports are added and removed, banks moved and modules switched
  on and off between the accesses, against a machine that only remembers what was put on the
  bus. `Mmc1` proves that the serial register file, the bank windows and the bus together
  show the CPU and the PPU the right bytes of the cartridge.
- **The processor.** `Cpu` and `Processor` model the instructions, `InstructionLaws` says bit by
  bit what they compute, `Chains` proves arithmetic on numbers of any length, binary and decimal,
  and `Nesting` proves nested calls and interrupts.
- **Register port, NMI line, checksum.** `PpuPort`, `NmiLine` and `Crc`.

`Bits`, `Arith`, `Scroll`, `Pixels` and `Sprites` hold the facts about shifted words, division,
packed scroll fields and pattern bits that the main proofs rest on. Objects that the program
updates in place are classes here; their methods are proved against functions, and what the
program promises is proved about those functions.

Findings about the code itself, each stated by a lemma or a contract:

- The MMC1 keeps the cycle of its last accepted write in eight bits, with 0xFF before the first,
  and compares it with a 32-bit cycle count. `Mmc1.FilterExact` says for every history and every
  later cycle when the filter drops a write exactly if it comes within two cycles of an accepted
  one. Before any write was accepted it does so while the counter is above 257; until then, and again
  after each wrap of the counter, every write is lost (`Mmc1.PowerOnLoses`). Just after an accepted
  write it does so if that write came in the first 256 values of the counter or the counter wrapped
  in between; otherwise both writes count (`Mmc1.SecondWriteCounts`, `Mmc1.NeverDroppedLater`). Later it does so unless the counter has
  wrapped and not yet passed the stored byte by more than two (`Mmc1.WrapLoses`). The code is
  modelled as it is; the comment at `mappers/src/mmc1.cpp:120` promises more.
- Sprite 0 vanishes when its attribute byte is 0xF7 or 0xFF: evaluation sets its marker bit, and
  0xFF marks an empty slot. Only the Y coordinate hides a sprite, if and only if sprite 0 is hidden
  by it anyway or its marked attribute byte is not 0xFF (`Picture.DrawableExact`). Otherwise no
  pixel of sprite 0 is drawn and it never hits (`Picture.HiddenZero`); `Picture.VanishingSprite`
  gives a scene. The OAM port clears bits 2 to 4 of attributes
  (`PpuPort.RegisterPort.OamDataWrite`), which rules it out (`Picture.DrawableWhenStored`), but OAM
  DMA does not: attributes are clean after a transfer exactly when they came clean
  (`PpuPort.RegisterPort.OamDma`).
- `ISC` agrees with `INC` then `SBC` exactly outside decimal mode, because in decimal mode it
  writes the complement of its operand back (`Processor.Cpu6502.Isc`).
- Stepping by whole periods and stepping tick by tick run the receivers equally often exactly
  when every rate divides the period (`Stepper.WholeIsExact`).
- A port that runs past the top of the address space and overlaps no other is accepted exactly
  when the bottom addresses are free that its end would wrap to, although it can never answer
  there (`AddressSpace.AcceptedExactly`; `AddressSpace.WrapRefused` is a refused one). Nothing in
  the repository places such a port. A module of no bytes is accepted anywhere and hides the rest
  of the port it is placed into (`AddressSpace.EmptyModuleHides`).
- The outer bank of a 512 KB cartridge takes part only when the CHR register written last is
  register 0 or CHR is in 4 KB mode (`Mmc1.PrgMeaning`, `Mmc1.OuterHigh`).

## Model

| member | source | states |
|---|---|---|
| Ppu.PPU.RenderFrame | ppu/src/ppu.cpp:56-71 | Every pixel of the framebuffer is the reference colour of (x, line), which is the palette entry of the layer on top, or its grey exactly when bit 0 of the mask register is set; the sprite-0 and overflow flags stand exactly when the reference picture has an overlap or an overflow; the frame has 262 lines of 341 ticks, less a dot where one is skipped; parity, frame counter and vertical blank flag |
| Ppu.PPU.SplitFrame | ppu/src/ppu.cpp:56-154 | The same for a frame in which a program may rewrite video memory, palette, registers and the scroll register at the end of every visible line: each pixel, both flags and the length are those of the film that the writes make, line by line |
| Ppu.TwoFrames | ppu/src/ppu.cpp:42-82 | From power-on, with video memory, OAM, palette and registers rewritten in the vertical blank, two frames show the two pictures, and the second is a tick shorter exactly when rendering is on |
| Ppu.PPU.constructor | ppu/src/ppu.cpp:73-82 | Power-on state: registers clear, even frame, no flag raised, and everything the frame needs of the arrays |
| Ppu.PPU.ScanlinePreRender | ppu/src/ppu.cpp:92-154 | From any leftover pipeline state, the pre-render line leaves everything visible line 0 needs |
| Ppu.PPU.ScanlineRender | ppu/src/ppu.cpp:92-154 | A visible line draws its 256 pixels from the scene in force since the end of the line before, whatever is written at its own end, and leaves everything the next line needs: the scene as written and the row below, carried on from the scroll register |
| Ppu.PPU.ScanlineIdle | ppu/src/ppu.cpp:155-178 | Idle lines take 341 ticks and only line 241 touches the vertical blank flag, unless it was suppressed |
| Ppu.PPU.RenderTile | ppu/src/ppu.cpp:180-276 | Eight pixels of a tile from shifters, latches and prefetched sprites are the reference pixels |
| Ppu.PPU.DrawPixel | ppu/src/ppu.cpp:186-275 | One pixel: background tap, first opaque sprite, priority, sprite-0 hit |
| Ppu.PPU.BackgroundPixel | ppu/src/ppu.cpp:190-199 | The tapped bits are the reference background dot |
| Ppu.PPU.SelectSprite | ppu/src/ppu.cpp:204-237 | The first opaque one of the prefetched sprites is chosen |
| Ppu.PPU.FetchNextTile | ppu/src/ppu.cpp:422-463 | The prefetch holds the pattern row and attribute bits of the tile the scroll register names, and the column moves on by one modulo 64 |
| Ppu.PPU.FetchAndReload | ppu/src/ppu.cpp:122-150 | With tile j alone in the shifters, fetching and reloading completes the state before screen tile j: tiles j and j+1 loaded, the register at tile j+2 |
| Ppu.PPU.PrefetchTwoTiles | ppu/src/ppu.cpp:141-150 | After the line break the shifters hold tiles 0 and 1 of the next line and the register points at tile 2 |
| Ppu.PPU.SpriteEvaluation | ppu/src/ppu.cpp:326-353 | Secondary OAM is exactly the first eight in-range sprites in OAM order, padded; overflow is flagged exactly when the diagonal scan hits |
| Ppu.PPU.DoBuggyOverflowEvaluation | ppu/src/ppu.cpp:355-377 | The scan that moves diagonally through OAM flags an overflow exactly when some examined byte is in range, for the tick that belongs to the first such byte |
| Ppu.PPU.PrefetchSprites | ppu/src/ppu.cpp:379-420 | Every slot holds the pattern bytes of its sprite's row, flipped, from the right table in both sizes, or stays empty |
| Ppu.PPU.CoarseXIncrement | ppu/src/ppu.cpp:488-499 | Plus one modulo 64 on the column, nothing else |
| Ppu.PPU.YIncrement | ppu/src/ppu.cpp:501-527 | The next row: plus one modulo 480, and from rows 240 to 255 to row 0 without a name table flip |
| Ppu.PPU.ResetHorizontalScroll | ppu/src/ppu.cpp:474-479 | The column becomes that of t |
| Ppu.PPU.ResetVerticalScroll | ppu/src/ppu.cpp:481-486 | The row becomes that of t |
| Ppu.PPU.DoUnusedNtFetches | ppu/src/ppu.cpp:278-293 | Four ticks, and the skip decision for the next line |
| Ppu.FrameTicks | ppu/src/ppu.cpp:42-71 | A frame takes 89342 ticks, less one for each skipped dot |
| Ppu.StatusMeaning | ppu/include/ppu.hpp:104-109 | The pre-render line clears the upper three bits of the status byte, and the vertical blank flag counts 128 |
| Picture.GreyscaleMeaning | ppu/src/ppu.cpp:263-266 | Without bit 0 of the mask register a colour stays as it is; with it 16 times its bits 4 and 5 are left |
| Picture.SwitchBits | ppu/include/ppu.hpp:121-131 | Bits 3 and 4 of the mask register switch the layers, 1 and 2 their leftmost eight pixels, and rendering is on when one of the layers is |
| Picture.ControlBits | ppu/include/ppu.hpp:111-119 | Bit 4 of the control register picks the background's pattern table, bit 5 makes sprites 16 lines high |
| Picture.SpriteLines | ppu/include/ppu.hpp:142-145 | A sprite whose Y byte is below 255 covers 8 or 16 lines from the line below its Y on |
| Picture.RowAtNext | ppu/src/ppu.cpp:501-527 | The closed form of the row shown on a line follows the increment of the scroll register, for every starting row |
| Picture.ScrollLaw | ppu/src/ppu.cpp:119-150 | Below row 240 line L shows row (Y(t) + L) modulo 480; from 240 on, the rows from 0 on after the attribute rows |
| Picture.SplitRows | ppu/src/ppu.cpp:130-134 | A split screen: after one write to the scroll register at the end of line k, lines up to k show one scene and the lines below the other, from the row below the one the new registers name |
| Picture.TouchingComplete | ppu/include/ppu.hpp:142-145 | The sprites of a line are exactly those in range, in order |
| Picture.DrawableExact | ppu/src/ppu.cpp:335-351 | Only the Y coordinate hides a sprite, if and only if sprite 0 is hidden by it or its attribute byte with the marker bit is not 0xFF |
| Picture.HiddenZero | ppu/src/ppu.cpp:204-237 | When it is 0xFF, sprite 0 is not drawn at any pixel of the frame and never hits |
| Picture.VanishingSprite | ppu/src/ppu.cpp:335-351 | With attribute byte 0xF7 an opaque sprite 0 on screen is not drawn, while sprite 1 with the same bytes is |
| Picture.DrawableWhenStored | ppu/src/ppu.cpp:341-351 | With the unused attribute bits clear, only its Y coordinate can hide a sprite |
| Picture.NoSpritesOnLineZero | ppu/include/ppu.hpp:142-145 | In steady state line 0 has no sprites |
| Scroll.ColumnOverflow | ppu/src/ppu.cpp:494-498 | Coarse X 31 wraps to 0 and flips the horizontal name table |
| Scroll.RowFlip | ppu/src/ppu.cpp:509-515 | Row 239 wraps to row 0 of the other vertical name table |
| Scroll.RowInvalid | ppu/src/ppu.cpp:516-519 | Coarse Y 31 wraps to 0 without a flip |
| Scroll.HorizontalCopy | ppu/src/ppu.cpp:474-479 | The copy takes column bits from t and all others from v |
| Scroll.VerticalCopy | ppu/src/ppu.cpp:481-486 | The copy takes row bits from t and all others from v |
| Scroll.FetchMeaning | ppu/src/ppu.cpp:427-446 | Name table, pattern and fine Y addresses are those of the tile at (column, row) |
| Scroll.AttributeMeaning | ppu/src/ppu.cpp:437-454 | The attribute address and quadrant shift select the palette bits of that tile |
| Scroll.Fields | ppu/src/ppu.cpp:31-38 | Column, row and page determine the register |
| Pixels.PaletteBits | ppu/src/ppu.cpp:239-261 | Or-ing pattern and palette bits gives the reference palette index |
| Pixels.SpriteTap | ppu/src/ppu.cpp:215-222 | A prefetched sprite's bit at a column is the reference pattern bit, with both flips |
| Sprites.FetchAddressMeaning | ppu/src/ppu.cpp:392-400 | The 8x8 and 8x16 address arithmetic addresses the reference row of the sprite |
| Sprites.SameSecondary | ppu/src/ppu.cpp:326-353 | Sprites found on a line stay those of the line when memory and registers other than OAM and the sprite height change |
| Sprites.SlotFilled | ppu/src/ppu.cpp:404-418 | A filled slot shows its sprite's pattern at every column |
| Bits.TapOfWord | ppu/src/ppu.cpp:195-196 | After i shifts a 16-bit shifter shows bit 7-(x+i) of its first byte, then of its second |
| Bits.TapOfSpread | ppu/src/ppu.cpp:197-198 | The 8-bit attribute shifter shows the old palette bit, then the latched one |
| SharedStack.RunAll | external/libaco/aco.c:306-482 | Isolation: over every legal interleaving of creating, resuming, finishing and destroying, each coroutine sees exactly what it would see on a private stack |
| SharedStack.RunNew | external/libaco/aco.c:208-288 | The same for a new stack |
| SharedStack.Step | external/libaco/aco.c:306-482 | One operation follows the private-stack machine |
| SharedStack.ShareStack.Resume | external/libaco/aco.c:364-467 | The resumed coroutine owns the stack and finds the bytes it had at its last yield; all others keep theirs |
| SharedStack.ShareStack.SaveOwner | external/libaco/aco.c:366-427 | The owner's live bytes move to its buffer and the stack has no owner |
| SharedStack.ShareStack.GrowTo | external/libaco/aco.c:389-400 | The size is doubled until the bytes fit, and no further, so it stays below twice their number; it does not overflow |
| SharedStack.ShareStack.Load | external/libaco/aco.c:428-463 | The saved bytes return to the addresses they came from |
| SharedStack.ShareStack.Destroy | external/libaco/aco.c:469-482 | A destroyed owner gives up the stack; another owner keeps it, and all others live on |
| SharedStack.ShareStack.constructor | external/libaco/aco.c:276-283 | The return slot lies below a 16-byte boundary inside the stack and the usable range inside its memory |
| SharedStack.ShortCopy | external/libaco/aco.c:55-146 | The unrolled copy equals a plain copy for the lengths its guard admits |
| SharedStack.Copy | external/libaco/aco.c:148-157 | Guarded or not, the bytes are copied and nothing else changes |
| SharedStack.CoverageExact | external/libaco/aco.c:55-146 | Whole words and an eight-byte tail cover a range exactly when at most eight bytes remain after the words |
| SharedStack.FastPath | external/libaco/aco.c:47-53 | Between aligned ends the guard holds exactly for frames of at most 136 bytes |
| SharedStack.StackSize | external/libaco/aco.c:208-265 | Rounded up to whole pages plus one guard page, never less than asked for; aborts only near the top of the address range |
| Stepper.Receiver.RunCo | common/coroutine.hpp:78-87 | One call is one tick of the receiver's clock, skipped or not |
| Stepper.Receiver.RunTicks | common/coroutine.hpp:78-96 | After n calls the receiver stands in the wait that tick counting assigns, however its waits are split into plain and fast ones |
| Stepper.WaitUnique | common/coroutine.hpp:78-96 | That wait is the only one |
| Stepper.ParallelStepper.Step | common/parallel_stepper.hpp:80-92 | One master tick advances every divided clock and runs, in order, the receivers whose clock is full |
| Stepper.ParallelStepper.StepMany | common/parallel_stepper.hpp:80-92 | n ticks run a receiver (clock + n) / rate times |
| Stepper.ParallelStepper.StepWhole | common/parallel_stepper.hpp:94-111 | A whole period runs a receiver once for every multiple of its rate in it, in clock order |
| Stepper.WholeIsExact | common/parallel_stepper.hpp:80-111 | k whole periods and k * max ticks agree exactly when the rate divides max |
| Stepper.OtherRate | common/parallel_stepper.hpp:80-111 | Otherwise whole periods run the receiver too often |
| Stepper.Compare | common/parallel_stepper.hpp:80-111 | For all receivers together: equal counts exactly when every rate divides the period |
| Stepper.ConsoleOrder | core/src/nes.cpp:73-91 | A whole step of the console runs the CPU once and then the PPU three times |
| Console.Console.RunFrame | core/src/nes.cpp:130-143 | Ends from every PPU state; stops within three ticks of the start of line 241 unless the first loop ends in it; in steady state counts exactly one frame and takes 89342 ticks from line 241 to line 241, less one exactly when the frame was even and rendering is enabled in tick 7158 - d behind dot d, whenever else it is switched; from a reset it reaches steady state |
| Console.Console.RunAfterReset | core/src/nes.cpp:117-143 | From a reset in any state, one call and n more count exactly n frames |
| Console.Console.SoftReset | core/src/nes.cpp:117-122 | The raster is in front of a pre-render line in an even frame; line number, frame counter and a pending skipped dot stay |
| Console.Console.RunCpuCycle | core/src/nes.cpp:145-155 | One CPU cycle is three PPU ticks under the rendering state the CPU leaves; the decay counter fires at its limit and restarts |
| Console.FrameLength | ppu/src/ppu.cpp:278-293 | However rendering is switched during a frame, the frame ends after 89342 ticks, less one exactly when it is odd and rendering is enabled in tick 338, and not before |
| Console.FrameOverMeaning | ppu/src/ppu.cpp:56-71 | A running PPU ends its frame at exactly one place, in the tick before the pre-render line |
| Console.ShowsFrame | ppu/src/ppu.cpp:56-71 | Whenever rendering is switched, the raster the loop observes shows, tick by tick, exactly the lines and lengths that the pipeline logs |
| Console.LineRun | ppu/src/ppu.cpp:92-178 | A line is observed for all its ticks and no other |
| Console.ThreeCloser | core/src/nes.cpp:138-142 | Three ticks outside line 241 get closer to it or stop at its first three dots |
| Console.ThreeTowards | core/src/nes.cpp:130-143 | The same with the frame counter, the parity and the skipped dot accounted for |
| Console.SteadyTick | ppu/src/ppu.cpp:56-71 | A running raster moves by one position modulo 89342, by two where a dot is skipped, and counts frames at the pre-render line |
| BusHistory.Run | memory/src/address_space.cpp:8-114 | Over every run of accesses, additions, removals, bank changes and enabling: a port is accepted exactly when its bytes are free among the ports then present, a mapped read returns the byte last written through any alias of the cell it then finds, an unmapped one the byte last driven on the bus |
| BusHistory.RunFrom | memory/src/address_space.cpp:8-114 | The same from any bus and any memory contents |
| BusHistory.Perform | memory/src/address_space.cpp:8-114 | One operation follows the machine that has sets of ports and a history instead of lists and bytes |
| AddressSpace.Bus.AddPortTo | memory/src/address_space.cpp:8-28 | Accepted exactly when every byte is free, whatever the list holds; a disjoint sorted list stays one |
| AddressSpace.FreeIsApart | memory/src/address_space.cpp:13-21 | The byte check refuses every overlap, and inside the address space nothing else |
| AddressSpace.AcceptedExactly | memory/src/address_space.cpp:13-21 | A port apart from all others is accepted exactly when the addresses its end wraps to are free |
| AddressSpace.WrapRefused | memory/src/address_space.cpp:14 | A two-byte port at the last address is refused because of a port at address zero |
| AddressSpace.EmptyModuleHides | memory/src/address_space.cpp:8-51 | A module of no bytes is accepted anywhere, and then exactly the addresses from its base on of the port it was placed into are found no more |
| AddressSpace.PlacedOrdered | memory/src/address_space.cpp:23-27 | Sorting in a port that is apart from all others keeps the order and disjointness |
| AddressSpace.SamePorts | memory/src/address_space.cpp:23-27 | The sorted list depends only on which ports it holds |
| AddressSpace.Bus.FindPort | memory/src/address_space.cpp:30-51 | The valid port that contains the address, or none if there is none; in any list, the last of the leading ports at or below the address or none |
| AddressSpace.AtMostOneAnswers | memory/src/address_space.cpp:30-51 | At most one port answers |
| AddressSpace.Bus.RemoveModule | memory/src/address_space.cpp:53-60 | Exactly the ports of other modules remain, in order |
| AddressSpace.Bus.RemoveBase | memory/src/address_space.cpp:62-70 | Exactly the ports at other bases remain, in order |
| AddressSpace.Bus.Read | memory/src/address_space.cpp:78-88 | The reached cell's byte, which then is on the bus, or the byte already there |
| AddressSpace.Bus.Poke | memory/src/address_space.cpp:90-101 | The same without touching the bus |
| AddressSpace.Bus.Write | memory/src/address_space.cpp:103-114 | Only the target cell changes, and the bus carries the byte |
| AddressSpace.Mirrors | core/src/nes.cpp:107-110 | A module at two bases is one memory seen twice |
| AddressSpace.Bus.SetMirroring | core/src/nes.cpp:163-175 | The four tables are placed, all other ports stay |
| AddressSpace.TableReached | core/src/nes.cpp:163-175 | Every name table address reaches its table |
| AddressSpace.OthersReached | core/src/nes.cpp:163-175 | Every other address reaches what it did |
| AddressSpace.Module.SetBank | interface/memory.hpp:95-102 | The window moves to the bank, modulo the number of banks, and stays inside the image |
| Mmc1.Cartridge.RegisterWrites | mappers/src/mmc1.cpp:112-165 | Over any run of writes the registers are those of the reference machine and banks, RAM enable and mirroring follow them |
| Mmc1.Cartridge.RegisterWrite | mappers/src/mmc1.cpp:112-165 | One write: bus conflict, filter, reset or shift, commit |
| Mmc1.Cartridge.Take | mappers/src/mmc1.cpp:128-164 | The shift register and its count represent the list of received bits |
| Mmc1.ShiftIn | mappers/src/mmc1.cpp:136-138 | Shifting down with the new bit on top appends the bit to the represented list |
| Mmc1.FiveWrites | mappers/src/mmc1.cpp:136-163 | Five writes commit their low bits, first lowest, to the register picked by the fifth address |
| Mmc1.FilterExact | mappers/src/mmc1.cpp:120-125 | For every history, with a stored byte and a 32-bit count: the filter drops exactly the writes within two cycles of an accepted one if and only if the condition on the counter holds |
| Mmc1.FilteredRun | mappers/src/mmc1.cpp:112-165 | Where the condition holds at every write, a run leaves the registers as an ideal filter would |
| Mmc1.PowerOnLoses | mappers/include/mmc1.hpp:60 | From power-on, any writes before cycle 258 change nothing |
| Mmc1.NeverDroppedLater | mappers/src/mmc1.cpp:120-125 | After a write accepted at counter value 256 or later none is dropped until the counter wraps |
| Mmc1.SecondWriteCounts | mappers/src/mmc1.cpp:120-125 | Writes in cycles 300 and 301 both count |
| Mmc1.WrapLoses | mappers/src/mmc1.cpp:120-125 | After the counter wraps, a write 300 cycles after an accepted one is lost |
| Mmc1.Cartridge.ReadPrg | mappers/src/mmc1.cpp:84-86 | A CPU read returns the in-bounds PRG byte that the registers ask for |
| Mmc1.Cartridge.ReadChr | mappers/src/mmc1.cpp:199-210 | A PPU read returns the in-bounds CHR byte that the registers ask for |
| Mmc1.PlayCartridge | mappers/src/mmc1.cpp:61-165 | End to end: a new cartridge put on the buses and written to in any run shows the CPU and the PPU the program, pattern and name table bytes that the reference register file asks for |
| Mmc1.Cartridge.PrgReached | mappers/src/mmc1.cpp:178-246 | Through the bus, address 0x8000 + off reaches that byte of the image |
| Mmc1.Cartridge.ChrReached | mappers/src/mmc1.cpp:199-210 | Through the PPU's bus, address off reaches the CHR byte asked for |
| Mmc1.Cartridge.NameTableReached | mappers/src/mmc1.cpp:180-194 | Through the PPU's bus, a name table address reaches the first table in mode 0, the second in mode 1, the one that address bit 10 selects in mode 2 and the one that address bit 11 selects in mode 3 |
| Mmc1.Cartridge.ChrWritten | mappers/src/mmc1.cpp:88-94 | With CHR RAM a write reaches the byte that a read of the address does; CHR ROM is never written |
| Mmc1.Cartridge.RamReached | mappers/src/mmc1.cpp:81-82 | Work RAM answers reads and writes at the same cell exactly while bit 4 of the PRG register is clear |
| Mmc1.ConflictBits | mappers/src/mmc1.cpp:114-118 | On boards with bus conflicts a written bit arrives as one exactly when the ROM drives it as one, too |
| Mmc1.PrgMeaning | mappers/src/mmc1.cpp:212-246 | Bank arithmetic in every mode is address arithmetic modulo the image, or inside the selected half of a 512 KB image |
| Mmc1.OuterHigh | mappers/src/mmc1.cpp:236-246 | The upper window of a 512 KB image with the outer bank |
| Mmc1.ChrMeaning | mappers/src/mmc1.cpp:199-210 | The same for both CHR modes |
| Mmc1.WindowIndex | interface/memory.hpp:95-102 | Bank numbers wrap as addresses do |
| Mmc1.PrgInBounds | mappers/src/mmc1.cpp:212-246 | Every position is inside the image |
| Mmc1.AcceptWellFormed | mappers/src/mmc1.cpp:128-164 | Registers keep to five bits |
| Mmc1.Cartridge.ApplyBanking | mappers/src/mmc1.cpp:178-247 | All windows, the RAM enable and the mirroring follow the registers |
| Mmc1.Cartridge.ApplyOuter | mappers/src/mmc1.cpp:234-246 | The outer bank moves both PRG windows and the RAM window, or none |
| Mmc1.Cartridge.ApplyMirroring | mappers/src/mmc1.cpp:180-194 | The tables of the selected mode are placed |
| Mmc1.Cartridge.Init | mappers/src/mmc1.cpp:61-110 | From any register state the ports are accepted and the cartridge starts with the last bank fixed; received bits and the CHR register written last stay |
| Cpu.AddBinaryMeaning | cpu/src/instructions.cpp:33-70 | Result and carry are the sum; overflow exactly when the signed sum does not fit |
| Cpu.SubBinaryMeaning | cpu/src/instructions.cpp:72-111 | Carry exactly when nothing was borrowed; negative differs from overflow exactly when the signed difference is negative |
| Cpu.AddDecimalMeaning | cpu/src/instructions.cpp:45-64 | Decimal operands give a decimal result, with decimal carry |
| Cpu.Complement99 | cpu/src/instructions.cpp:84-87 | Complementing the operand complements its decimal value |
| Cpu.CmpMeaning | cpu/src/instructions.cpp:252-259 | Carry is the unsigned order, zero is equality |
| Cpu.RolMeaning | cpu/src/instructions.cpp:449-463 | Byte and carry together are doubled modulo 512, the carry coming round |
| Cpu.RorMeaning | cpu/src/instructions.cpp:474-488 | The nine bits are halved, the low bit coming round |
| Cpu.RotateBack | cpu/src/instructions.cpp:449-488 | ROR undoes ROL on memory and carry |
| Cpu.ArithmeticFlagsMeaning | cpu/src/instructions.cpp:66-67 | Carry, overflow, zero and negative are set, all other flags kept |
| Cpu.ChangeMeaning | common/bitops.hpp:54-58 | Changing a bit sets it to the value and keeps the others |
| Cpu.RestoredFlags | cpu/src/instructions.cpp:557-560 | The break bit does not survive the stack, bit 5 is always set |
| InstructionLaws.FlagBits | cpu/include/cpu.hpp:88-98 | Which flag is which bit of the status byte |
| InstructionLaws.AndMeaning | cpu/src/instructions.cpp:113-120 | A bit of the accumulator stays set exactly when the byte has it, too; zero and negative are those of the result |
| InstructionLaws.OraMeaning | cpu/src/instructions.cpp:343-350 | The same with a bit of either |
| InstructionLaws.EorMeaning | cpu/src/instructions.cpp:335-342 | The same with bits that differ |
| InstructionLaws.AslMeaning | cpu/src/instructions.cpp:122-133 | Every bit moves up, a zero comes in and bit 7 becomes the carry |
| InstructionLaws.LsrMeaning | cpu/src/instructions.cpp:427-437 | Every bit moves down, a zero comes in and bit 0 becomes the carry |
| InstructionLaws.RolBits | cpu/src/instructions.cpp:449-463 | Every bit moves up, through the carry |
| InstructionLaws.RorBits | cpu/src/instructions.cpp:474-488 | Every bit moves down, through the carry |
| InstructionLaws.IncMeaning | cpu/src/instructions.cpp:277-297 | Plus one modulo 256, the carry kept |
| InstructionLaws.DecMeaning | cpu/src/instructions.cpp:306-326 | Minus one modulo 256, the carry kept |
| InstructionLaws.RlaMeaning | cpu/src/instructions.cpp:743-759 | The byte moves up through the carry, and the accumulator keeps the bits that it has, too |
| InstructionLaws.SloMeaning | cpu/src/instructions.cpp:810-823 | The byte moves up, and the accumulator gains its bits |
| InstructionLaws.SreMeaning | cpu/src/instructions.cpp:825-838 | The byte moves down, and its bits flip those of the accumulator |
| InstructionLaws.DcpMeaning | cpu/src/instructions.cpp:686-698 | The byte is decremented, and carry and zero are its order to the accumulator |
| InstructionLaws.StackedFlags | cpu/src/cpu.cpp:139-146 | Bit 4 of the stacked flags tells BRK from the interrupts, all other bits are the flags |
| InstructionLaws.InterruptMeaning | cpu/src/cpu.cpp:130-154 | The halves of the program counter and the flags lie in three cells of page one, interrupts are disabled, and execution goes on at the address in the vector, low byte first |
| Processor.Cpu6502.Adc | cpu/src/instructions.cpp:33-70 | The instruction is its state function, in both modes, and keeps bit 5 |
| Processor.Cpu6502.Sbc | cpu/src/instructions.cpp:72-111 | The instruction is its state function, in both modes, and keeps bit 5 |
| Processor.Cpu6502.AddDigits | cpu/src/instructions.cpp:47-63 | The step-by-step digit correction computes the decimal sum |
| Processor.Cpu6502.Cmp | cpu/src/instructions.cpp:252-259 | The comparison's state function, whose flags `Cpu.CmpMeaning` explains |
| Processor.Cpu6502.Rol | cpu/src/instructions.cpp:449-463 | Rotation through carry on memory, as `Cpu.RolMeaning` explains |
| Processor.Cpu6502.Ror | cpu/src/instructions.cpp:474-488 | Rotation through carry on memory, as `Cpu.RorMeaning` explains |
| Processor.Cpu6502.Dcp | cpu/src/instructions.cpp:686-698 | Leaves registers, flags and memory exactly as DEC then CMP |
| Processor.Cpu6502.Isc | cpu/src/instructions.cpp:700-741 | Leaves the state of an increment and a subtraction with the operand, complemented in decimal mode, in memory; that is INC then SBC exactly outside decimal mode |
| Processor.Cpu6502.Rla | cpu/src/instructions.cpp:743-759 | As ROL then AND |
| Processor.Cpu6502.Rra | cpu/src/instructions.cpp:761-808 | One body leaves the state of ROR then ADC, in both modes |
| Processor.Cpu6502.Slo | cpu/src/instructions.cpp:810-823 | As ASL then ORA |
| Processor.Cpu6502.Sre | cpu/src/instructions.cpp:825-838 | As LSR then EOR |
| Processor.Cpu6502.constructor | cpu/src/cpu.cpp:71-83 | Reset state, with bit 5 of the flags set and the program counter from 0xFFFC, low byte first |
| Processor.PollTaken | cpu/src/cpu.cpp:108-121 | An NMI alone goes to the address at 0xFFFA, an IRQ, also right behind an NMI, to the one at 0xFFFE, low byte first |
| Processor.Cpu6502.SwitchToIsr | cpu/src/cpu.cpp:130-154 | Program counter and flags stacked, interrupts disabled, vector taken |
| Processor.Cpu6502.Plp | cpu/src/instructions.cpp:539-544 | Flags from the stack with bit 5 set |
| Processor.Cpu6502.TakeInterrupts | cpu/src/cpu.cpp:108-121 | A pending NMI first and a pending IRQ right behind it |
| Processor.IncThenSbc | cpu/src/instructions.cpp:700-741 | INC then SBC is a subtraction of the incremented byte |
| Processor.IscAgrees | cpu/src/instructions.cpp:700-741 | ISC and INC then SBC leave the same state if and only if the mode is binary |
| Processor.RorThenAdc | cpu/src/instructions.cpp:761-808 | ROR then ADC is an addition of the rotated byte with the bit rotated out as carry |
| Processor.FromReset | cpu/src/cpu.cpp:71-128 | Bit 5 of the flags is set in every state that any sequence of the modelled instructions, interrupts and parts of the other instructions reaches from reset |
| Chains.AddBytes | cpu/src/instructions.cpp:33-70 | CLC and n times LDA, ADC, STA: the n-byte sum, its carry out and the signed overflow of the whole |
| Chains.SubtractBytes | cpu/src/instructions.cpp:72-111 | SEC and n times LDA, SBC, STA: the difference, no borrow, and N xor V exactly when signed less |
| Chains.AddDecimalBytes | cpu/src/instructions.cpp:45-64 | The 2n-digit decimal sum with every byte decimal and C the decimal carry |
| Chains.SubtractDecimalBytes | cpu/src/instructions.cpp:84-105 | The decimal difference modulo 100^n, C exactly when nothing was borrowed |
| Chains.SumStep | cpu/src/instructions.cpp:39-44 | One byte more keeps the sum relation |
| Chains.DifferenceStep | cpu/src/instructions.cpp:78-83 | One byte more keeps the difference relation |
| Chains.DecimalSumStep | cpu/src/instructions.cpp:45-64 | One byte more keeps the decimal sum |
| Chains.DecimalDifferenceStep | cpu/src/instructions.cpp:84-105 | One byte more keeps the decimal difference |
| Chains.SignedIsNumber | cpu/src/instructions.cpp:66 | What the signed value of a byte string is |
| Nesting.Execute | cpu/src/cpu.cpp:87-189 | Every well-nested program within 256 stacked bytes follows the reference machine: returns restore the stack pointer, the program counter and the flags |
| Nesting.ExecuteFromReset | cpu/src/cpu.cpp:71-189 | The same from reset, with an empty stack; the program starts at the address at 0xFFFC, and after an NMI stands at the one at 0xFFFA, after an IRQ or BRK at the one at 0xFFFE |
| Nesting.Perform | cpu/src/cpu.cpp:87-189 | One event follows the reference machine |
| Nesting.CallFollows | cpu/src/instructions.cpp:378-387 | JSR opens a frame |
| Nesting.ReturnFollows | cpu/src/instructions.cpp:566-572 | RTS finds the program counter and stack pointer of its JSR |
| Nesting.EnterFollows | cpu/src/cpu.cpp:130-154 | BRK, NMI and IRQ open a frame |
| Nesting.ReturnFromInterruptFollows | cpu/src/instructions.cpp:557-565 | RTI finds program counter, stack pointer and flags, without the break bit |
| Nesting.BackToBack | cpu/src/cpu.cpp:110-120 | NMI and IRQ taken at once are two nested interrupts |
| Nesting.Pushed | cpu/src/cpu.cpp:173-179 | A push below 256 bytes keeps all stacked bytes, wherever the pointer wraps |
| Nesting.Popped | cpu/src/cpu.cpp:181-189 | A pop returns the top byte and keeps the others |
| PpuPort.RegisterPort.SetScroll | ppu/src/ppu_regs.cpp:149-167 | A control write and two scroll writes place the screen at plane position (256 * nt + x, y) |
| PpuPort.ScrollFirstMeaning | ppu/src/ppu_regs.cpp:151-158 | The first write sets the column inside the name table |
| PpuPort.ScrollSecondMeaning | ppu/src/ppu_regs.cpp:159-166 | The second sets the row, and only it |
| PpuPort.SelectTableMeaning | ppu/src/ppu_regs.cpp:270-274 | A control write selects the name table, and only it |
| PpuPort.LoadedAddress | ppu/src/ppu_regs.cpp:169-188 | Two address writes load the 14-bit address |
| PpuPort.VramAddressMeaning | ppu/src/ppu_regs.cpp:192 | The address is the register modulo 0x4000 |
| PpuPort.AddressFirstMeaning | ppu/src/ppu_regs.cpp:169-176 | The first address write replaces the upper byte and clears its two upper bits |
| PpuPort.AddressSecondMeaning | ppu/src/ppu_regs.cpp:177-187 | The second replaces the lower byte |
| PpuPort.MovedAddress | ppu/src/ppu_regs.cpp:212-219 | The increment is modulo 0x4000 on the address although the register wraps at 16 bits |
| PpuPort.RoundTrip | ppu/src/ppu_regs.cpp:169-268 | Bytes written at stride 1 or 32 come back, behind one stale byte |
| PpuPort.Upload | ppu/src/ppu_regs.cpp:169-220 | After a control write, two address writes and a run of data writes, byte k is in the cell of the address k strides behind the first, the stride being 32 exactly when bit 2 of the control byte is set |
| PpuPort.Walk | ppu/src/ppu_regs.cpp:169-268 | Over any mix of data reads and writes the address moves by one stride at each |
| PpuPort.WiringMeaning | core/include/nes.hpp:82-86 | Side by side the two name tables repeat vertically, one above the other horizontally, and they share no cell |
| PpuPort.PowerOn | core/src/nes.cpp:163-175 | The register port of a console at power-on, with either mirroring and with CHR RAM or ROM, is valid |
| PpuPort.FromPowerOn | ppu/src/ppu_regs.cpp:169-268 | From power-on, after any run of port accesses, up to 1 KB written to a name table comes back behind one stale byte |
| PpuPort.RegisterPort.DataWrite | ppu/src/ppu_regs.cpp:190-220 | One cell changes, mirrors resolved, and the renderer's palette copy stays equal to palette memory |
| PpuPort.RegisterPort.DataRead | ppu/src/ppu_regs.cpp:222-268 | Below the palette the buffered byte; in it the renderer's entry in the low six bits and the decaying bus in the others, while the byte 0x1000 below is fetched |
| PpuPort.AnyRun | ppu/src/ppu_regs.cpp:149-278 | After any run of port accesses every entry the renderer looks up equals palette memory |
| PpuPort.RendererIsCanonical | ppu/src/ppu.cpp:239-261 | Every index the renderer reads is one the port keeps up to date |
| PpuPort.RegisterPort.OamDataWrite | ppu/src/ppu_regs.cpp:134-147 | Stored attributes have bits 2 to 4 clear and the other bits of the written byte, all other cells the byte, or 0xFF while a picture is drawn |
| PpuPort.RegisterPort.OamDma | ppu/src/ppu.cpp:465-472 | The 256 bytes land from the current address on, around the end; attributes end up clean exactly when they came clean |
| NmiLine.Line.Run | ppu/src/ppu.cpp:307-324 | Over any interleaving, a low line implies the flag, and a vertical blank raises at most one NMI more than writes turned NMIs off in it |
| NmiLine.Line.Clock | ppu/src/ppu.cpp:106-171 | The flag is set and cleared behind the idle dots of line 241 and the pre-render line |
| NmiLine.FlagPlaces | ppu/src/ppu.cpp:106-171 | A running PPU sets the flag in the second tick of line 241 and clears it in the second of the pre-render line, and nowhere else |
| NmiLine.BlankLasts | ppu/src/ppu.cpp:106-171 | However rendering is switched, the vertical blank lasts exactly 6820 ticks |
| NmiLine.ClocksMeaning | ppu/src/ppu.cpp:155-174 | The tick counter that the CPU can observe counts the ticks of the line and stops at three in idle lines |
| NmiLine.Line.StatusRead | ppu/src/ppu_regs.cpp:80-114 | The flag is cleared; just before it would be set it is suppressed, just after, the pending NMI is taken back |
| NmiLine.Line.CtrlWrite | ppu/src/ppu_regs.cpp:270-278 | The line follows flag and enable bit when the observed tick count is above one, and stays as it was otherwise |
| NmiLine.Line.SuppressedByRead | ppu/src/ppu_regs.cpp:98-110 | A read in the tick before the flag would be set loses the whole vertical blank: over any events before the next one begins there is no flag, no low line and no NMI |
| NmiLine.Line.UpdateNmiLogic | ppu/src/ppu.cpp:313-324 | The line is low exactly when flag and enable bit are set; falling edges are latched |
| Crc.Crc32c | tests/mappers/utils/screen_crc.hpp:35-46 | The nested loops compute the checksum function |
| Crc.Polynomial | tests/mappers/utils/screen_crc.hpp:31-32 | The constant is the CRC-32C polynomial, term by term, in reversed bit order |
| Crc.CheckValue | tests/mappers/utils/screen_crc.hpp:35-46 | The checksum of the nine digits is 0xE3069283 |
| Crc.Chaining | tests/mappers/utils/screen_crc.hpp:35-46 | A checksum may be computed piece by piece |
| Crc.BurstDetected | tests/mappers/utils/screen_crc.hpp:35-46 | Equal-length buffers that differ only within four consecutive bytes have different checksums |
| Crc.BitStepsInjective | tests/mappers/utils/screen_crc.hpp:42-43 | The register loses no information |
| Crc.Wordwise | tests/mappers/utils/screen_crc.hpp:40-44 | Up to four bytes fed one by one are the word fed at once |

## Left out

- Ppu.PPU.RenderFrame: models a frame in which the CPU does not touch the PPU; `Ppu.PPU.SplitFrame` covers writes between the lines and `Ppu.TwoFrames` writes between frames.
- Ppu.PPU.SplitFrame: the writes to a line's end are taken together, behind the line's last tile fetch and before the scroll register is stepped; they leave OAM and the sprite height alone and rendering enabled or disabled. Writes in the middle of a line are left out.
- The bookkeeping of the delayed address write (`m_delayed_vram_cycle`), which no drawing code reads, and the colour emphasis bits, which the drawing code does not apply.
- Ppu.PPU.ScanlinePreRender: clears the vertical blank flag without driving the NMI line; the line and its edges are modelled in `NmiLine`.
- Ppu.PPU.ScanlineIdle: sets the vertical blank flag without driving the NMI line; the line and its edges are modelled in `NmiLine`.
- AddressSpace.Bus.FindPort: tests for the end of the list before it reads the port; the program reads it first.
- AddressSpace.Bus.AddPortTo: `std::sort` after appending is modelled as insertion behind the ports at or below the base, which differs only in the order of ports at one base, and the assertion on an overlap as a refusal.
- AddressSpace.EmptyModuleHides: at equal bases the model's insertion puts the empty module behind; the order in which `std::sort` leaves equal bases is open.
- AddressSpace.Bus.AddReadPort: asks, like AddWritePort and AddPort, for a module of at least one byte, so that the lists stay disjoint; `AddressSpace.EmptyModuleHides` says what an empty one does.
- BusHistory.Run: addresses are below 0x10000, as the program's 16-bit type makes them, and a bank change asks for a window no larger than its image.
- Memory modules are RAM, ROM and bank windows; modules with side effects on access are not on the modelled buses, so the write port of the MMC1 at 0x8000 is the method `RegisterWrite`, and logging is dropped.
- Mmc1.Cartridge.Init: the register write port at 0x8000 is not put on the bus, since its writes are calls of `RegisterWrite`; the mirroring from the file header is not set first, because banking replaces it at once; battery save files are not modelled.
- Mmc1.Cartridge.ApplyBanking: a 512 KB cartridge must have work RAM, since the program divides by its number of banks.
- SharedStack.ShareStack.Resume: the machine-level switch is one step that leaves arbitrary bytes in the usable range and a stack pointer inside it; registers, floating-point control words, signal masks and Valgrind hooks are not modelled, and failed allocations are not either.
- SharedStack.ShortCopy: the nine unrolled cases are one method over the number of words.
- Console.Console.RunCpuCycle: what the CPU does to the PPU is reduced to whether rendering is enabled; the stall of OAM DMA and stepping single PPU ticks between frames are left out.
- Cycle counts of instructions, the opcode table, addressing modes, branches and transfers between registers: finite lookups and small cases.
- Processor.FromReset: instructions outside the model (BIT, CLV, CPX, CPY, LDX, LDY, the register increments, transfers, branches and the remaining undocumented ones) are covered as sequences of parts, each with any values; what they compute is not stated.
- The WDC65c02 flavour, its extra instructions, and the undocumented instructions outside the six fused ones.
- PpuPort.RegisterPort.StatusRead: only the effect on the write toggle; the flags are in `Ppu` and `NmiLine`.
- PpuPort.RegisterPort.constructor: an address that no module answers is not modelled; every address is wired to a cell.
- NmiLine.Line.Run: the count is of falling edges of the line; how many instructions pass until the CPU takes one is not modelled.
- The other mappers, controllers, audio, the loader, the user interface and save files.

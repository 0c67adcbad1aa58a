# lvmm: a verified model of its devices, boot image and port dispatch

lvmm is a small virtual machine monitor on Linux KVM. This project models the parts of it that
carry state, arithmetic or concurrency, and proves what a guest may rely on:

- **COM1** (`Uart.dfy`, `UartThreads.dfy`, `UartTraces.dfy`, `UartInterrupts.dfy`). The register file is a class whose methods are proved
  against functions on values. The receive and interrupt protocol is a transition system with a
  stdin reader thread and any number of vCPU threads, cut at every touch of shared state. Over every
  interleaving: no receive interrupt for stdin and no transmit interrupt is lost, the receive queue
  neither loses nor invents a byte, overlapping flaps of the IRQ line each produce a rising edge, and a
  polling driver reads a prefix of the pushed bytes. For every byte, looped ones included, the condition
  under which it is announced is exact. Run alone, the steps are the register file.
- **The boot page table** (`Paging.dfy`). The stores of `createPageTable` against a page walk written
  from section 4.5 of volume 3A of the Intel Software Developer's Manual: an identity map of exactly
  the first 4 GiB, if and only if the base is page-aligned.
- **The MP tables** (`MpTables.dfy`). The bytes of `gen_ebda` against a reader written from sections
  4.1, 4.2 and 4.3.1 of the MultiProcessor Specification 1.4; checksums over any structure.
- **The guest RAM image** (`Addresses.dfy`, `Bytes.dfy`, `BootProtocol.dfy`, `GuestRam.dfy`). `initRAM` is a list of
  writes. For given sizes the image is whole for all contents if and only if the sizes keep the parts
  apart, and then a guest that starts from RSI reads back what the loader was given.
- **Port dispatch, CMOS and whole runs** (`Pio.dfy`, `Cmos.dfy`, `Machine.dfy`). The handler table means
  "the last range that contains the port"; over any run of VM exits and stdin bytes each device behaves
  as if its own accesses were all there was.

Where the source changes state in place the model is imperative (classes, arrays and loops with
invariants); each such method is proved against a function, and the theorems are about that function.

## What the code does against what it seems to intend

- `createPageTable` guards its base with `assert(~PL4_ADDR_MASK && ...)`. The logical `&&` makes it true
  for every base; `Paging.IdentityMapIffAligned` is the condition it does not check.
- `initRAM` checks no size. `GuestRam.SurvivesIffApart` gives the exact condition on the sizes:
  the command line has at most 0x7fc00 bytes (its NUL may fall on the first padding byte of the EBDA), and the
  kernel payload ends at or below `INITRAMFS_ADDR` or there is no initramfs.
- `MBBIOS_SIZE` is 0xffff, so byte 0xfffff is in no e820 entry (`BootProtocol.MapClassifies`).
- A byte written with loopback on is queued without a flap even when the receive interrupt is enabled
  (src/com1.cpp:123-127), so the law about lost interrupts fails for looped bytes
  (`UartThreads.LoopbackIsSilent` is such a run). `UartInterrupts.AnnouncedIff` says exactly when a byte is
  announced, and `UartInterrupts.NoLossWithoutLoopback` that all are while the loopback branch is not taken.
- `initVcpuRegs` reports a failure with 1 and `initMachine` only looks for negative results
  (src/vm.cpp:271-275), so a guest boots although some vCPUs were not set up; `GuestRam.PrepareGuest` says which.
- The year registers are right exactly for 1900 to 9999, and by luck for earlier years that end in 00 or 01
  (`Cmos.YearReadsBack`).
- The alternate delay port 0xED is registered first and then taken over by POST, whose range covers it.

## Model

| member | source | states |
|---|---|---|
| UartThreads.NoLostInterrupt | src/com1.cpp:146-206 | For every interleaving of the reader with any number of vCPUs: when all are idle and IER bit 0 is set, each stdin byte still in `rx_buf` was followed, after its push, by a rising edge on IRQ 4. |
| UartThreads.InvHolds | src/com1.cpp:195-206 | The inductive invariant behind it: every queued stdin byte not yet followed by an edge is owed one by the reader, or by the vCPU that stored IER last, or the interrupt is disabled. |
| UartThreads.VcpuKeepsAccount | src/com1.cpp:146-161 | No vCPU step drops an owed edge: the snapshot of `rx_buf` taken after the IER store cannot miss a byte pushed before it. |
| UartThreads.ReaderKeepsAccount | src/com1.cpp:199-206 | No reader step drops an owed edge: it looks at IER only after its push. |
| UartThreads.NothingLostOrInvented | src/com1.cpp:29-36 | Under every interleaving the pushed bytes, stdin and loopback in push order, are the popped bytes followed by `rx_buf`. |
| UartTraces.StdinInOrder | src/com1.cpp:196-203 | Under every interleaving the stdin bytes pushed are, in order, the bytes that came while the reader was waiting, but for the one it may still hold. |
| UartTraces.LoopbackInOrder | src/com1.cpp:123-127 | All other pushed bytes are, in order, those of the THR writes that took the loopback branch. |
| UartTraces.RepliesAreLogged | src/com1.cpp:29-36 | The replies that the polling law speaks of are the ones the guest gets at 0x3F8. |
| UartTraces.EndIsFinal | src/com1.cpp:207-210 | After the end of stdin the reader stays stopped and takes nothing more. |
| UartThreads.EveryFlapRises | src/vm.cpp:535-544 | However flaps of any threads overlap, between the low and the high ioctl of one thread the line takes a low-to-high transition. |
| UartThreads.IdleLineIsHigh | src/vm.cpp:517-544 | When every thread is idle and at least one flap has run, the line is high. |
| UartThreads.PollingDriverReadsStream | src/com1.cpp:78-87 | If one vCPU drains and reads 0x3F8 only after seeing Data Ready, its replies followed by `rx_buf` are the pushed bytes: never a made-up zero. |
| UartTraces.PollingDriverGets | src/com1.cpp:78-206 | End to end: what a polling driver got, followed by the queue, is the stdin and looped bytes in push order. |
| UartThreads.SoloRead | src/com1.cpp:26-113 | The steps of a read with nobody in between have the state change and reply of the sequential register file. |
| UartThreads.SoloWrite | src/com1.cpp:115-193 | The steps of a write with nobody in between have the state change, stdout byte and line changes of the sequential register file. |
| UartThreads.SoloInSystem | src/com1.cpp:26-193 | The same inside the system: scheduling one vCPU alone finishes its access and touches no other thread. |
| UartTraces.WriteInSystem | src/com1.cpp:115-193 | A whole write by one vCPU alone ends in the state of the sequential write, and shows the host each change of stdout and of the IRQ line that its effects make, in order. |
| UartTraces.ReadInSystem | src/com1.cpp:26-113 | A whole read by one vCPU alone gives the reply and state of the sequential read, and shows the host nothing. |
| UartTraces.ReaderAlone | src/com1.cpp:198-206 | The reader alone, from one byte of stdin back to waiting, queues that byte, pulses the line exactly when IER bit 0 is set, and shows the host just that pulse. |
| UartThreads.LoopbackIsSilent | src/com1.cpp:123-127 | For any byte, a schedule that ends idle with the receive interrupt enabled, a looped byte waiting, the line low and no flap made. |
| UartInterrupts.AnnouncedIff | src/com1.cpp:123-206 | Exactly when a pushed byte, looped or from stdin, is announced: in a run that ends idle the line rises after the push if and only if, just after it, some flap still has its low ioctl to make or is between its two ioctls. |
| UartInterrupts.RisesFromIff | src/vm.cpp:535-544 | The same from any point of a run: the line rises from there on if and only if a low ioctl is still to come or a flap is half done. |
| UartInterrupts.RiseDueIff | src/vm.cpp:535-544 | Half done means that the line is low and some thread is about to raise it. |
| UartInterrupts.NoLossWithoutLoopback | src/com1.cpp:119-127 | While no THR write meets the loop bit, every queued byte at rest was followed by a rising edge when IER bit 0 is set. |
| UartInterrupts.NoLostTransmitInterrupt | src/com1.cpp:134-158 | For every interleaving: when all are idle and IER bit 1 is set, each byte sent to stdout was followed, after it was sent, by a rising edge. |
| UartInterrupts.TxInvHolds | src/com1.cpp:128-158 | The invariant behind it: each sent byte not yet followed by an edge is owed one by a vCPU that sent or stored IER since, or the interrupt is disabled. |
| UartInterrupts.StdoutIsSent | src/com1.cpp:128-133 | Under every interleaving stdout grows by exactly the bytes sent, in order. |
| Uart.COM1.constructor | include/com1.hpp:72-84 | A new COM1 has every register 0 and an empty queue. |
| Uart.COM1.Read | src/com1.cpp:26-113 | Registers, queue, reply and code after a read at any port are those of `ReadPort`. |
| Uart.COM1.Write | src/com1.cpp:115-193 | Registers, queue, host effects in order and return code, failing host calls included, are those of `WritePort`. |
| Uart.COM1.Receive | src/com1.cpp:199-206 | A stdin byte joins the queue's end, and a flap follows exactly when IER bit 0 is set. |
| Uart.Vm.FlapIrqLine | src/vm.cpp:535-544 | The effects are those of the flap that `FlapPulses` describes, and the code is the negated errno of the first failing ioctl, else 0. |
| Uart.FlapPulses | src/vm.cpp:535-544 | From either level a successful flap drives the line low and then makes exactly one rise; if the second ioctl fails the line is left low without a rise; if the first fails nothing happens; other lines never move. |
| Uart.Vm.IrqLine | src/vm.cpp:517-533 | One line change, or the negated errno and no change. |
| Uart.RegistersFollowHistory | src/com1.cpp:146-186 | After any history LCR, MCR, FCR and SR hold the last byte written to their port, and IER the low four bits of the last byte written to 0x3F9 with DLAB clear. |
| Uart.DeadRegisters | include/com1.hpp:69-79 | The divisor latches hold what was last written with DLAB set, and THR, RBR, IIR, LSR and MSR are never stored to. |
| Uart.RegisterBits | include/com1.hpp:40-54 | The tests of DLAB, loopback, the two interrupt enables and the FIFO, and the writable part of IER, are the masks of the source bit for bit. |
| Uart.OutputPartition | src/com1.cpp:119-133 | stdout over any history is, in order, the THR writes made with DLAB clear and loopback off whose `write` succeeded. |
| Uart.TransmitEffects | src/com1.cpp:123-140 | A sent byte has its own flap right behind it when IER bit 1 is set; a looped byte has no effect outside; the code is the negated errno of the first failing call, else 0. |
| Uart.EnableEffects | src/com1.cpp:146-161 | Over any history, storing IER with DLAB clear flaps exactly when the new value enables THR empty, or enables receive while some received byte is not yet taken; the code is the negated errno of the first failing ioctl, else 0. |
| Uart.ArrivalEffects | src/com1.cpp:199-206 | A stdin byte flaps exactly when the last stored IER has bit 0 set. |
| Uart.QuietOtherwise | src/com1.cpp:115-193 | Apart from transmissions, IER stores and stdin bytes no access reaches the host, only ports outside 0x3F8-0x3FF are refused, and a refused access leaves the guest's byte alone. |
| Uart.RegistersReadBack | src/com1.cpp:42-76 | LCR, MCR, SR and, with DLAB clear, the four interrupt enables read back as last written. |
| Uart.QueueConservation | src/com1.cpp:29-36 | Over any history the stdin bytes and looped bytes, in order, are the bytes taken at 0x3F8 with DLAB clear followed by the queue. |
| Uart.DivisorIsFixed | src/com1.cpp:37-47 | With DLAB set the divisor always reads back as 9600 baud, whatever was written. |
| Uart.IirFollowsHistory | src/com1.cpp:50-68 | At any point of any history IIR names received data over THR empty over none, from the enables last stored and the bytes not yet taken, with the FIFO bits exactly when the last FCR write has bit 0. |
| Uart.StatusFollowsHistory | src/com1.cpp:78-103 | At any point of any history LSR shows an empty transmitter, no error, and Data Ready exactly while a received byte is not taken; MSR is CTS, DSR and DCD, or the modem controls last written, crossed over, when looped back. |
| Uart.CoreDeterminesBehaviour | include/com1.hpp:72-84 | States that agree on IER, FCR, LCR, MCR, SR and the queue give the same replies, stdout and flaps for every access sequence: THR, RBR, DLL, DLH, IIR, LSR and MSR are never observable. |
| Paging.CreatePageTable | src/vm.cpp:281-322 | Memory afterwards is the old one with exactly the six pages replaced; the running 64-bit entries never wrap. |
| Paging.IdentityMap | src/vm.cpp:295-317 | Over any memory that holds the six pages, the walk from CR3 = base sends every address below 4 GiB to itself (writable, supervisor, 2 MiB page) and finds every other 48-bit address not present; the entries used have exactly the attribute bits P, R/W, PCD and P, R/W, PS, G. |
| Paging.IdentityMapIffAligned | src/vm.cpp:293-302 | That holds for every earlier memory content if and only if the base is page-aligned. |
| Paging.MisalignedFaults | src/vm.cpp:289-302 | With a misaligned base in zeroed RAM the walk of address 0 faults. |
| Paging.DirectoryMaps | src/vm.cpp:312-317 | Directory entry 512*i+j is the one reached through pointer entry i and index j, and maps that 2 MiB page. |
| Paging.PointerMaps | src/vm.cpp:304-310 | The four pointer entries lead to the four directory pages; from the fifth on nothing is present. |
| Paging.EntryRead | src/vm.cpp:284-288 | The six pages do not overlap: entry `index` of page `page` reads back as word 512*page+index. |
| MpTables.RoundTrip | src/boot.cpp:62-90 | Once the structure is copied to 0x9fc00 in any memory, the specification's reader finds it by search and checksum, consumes exactly `length` bytes, its enabled processors are exactly the requested ones, ids in order, only id 0 the bootstrap, and the fixed fields have the source's values. |
| MpTables.GenEbda | src/boot.cpp:76-90 | The returned structure has exactly the bytes that the round trip is about, for every `vcpu_num` up to 32. |
| MpTables.ProcessorEntryInit | src/boot.cpp:62-74 | Every entry below `vcpu_num` becomes the described one, flags added to those it had; all others are unchanged. |
| MpTables.CalcChecksum | src/boot.cpp:13-19 | The wrapping accumulator is the byte sum modulo 256. |
| MpTables.SumsAgree | src/boot.cpp:13-19 | It is also the wrapping sum that the reader computes from the other end. |
| MpTables.ChecksumExact | include/boot.hpp:236-244 | Over any structure whose checksum slot is 0, a byte put there validates if and only if it is the generated one. |
| MpTables.ChecksumNeedsClearSlot | include/boot.hpp:236-244 | Generating over a slot that is not 0 never validates. |
| MpTables.ComplementIsXor | include/boot.hpp:238-238 | The exclusive or with 0xFF is the complement used in the model. |
| MpTables.TableReads | include/boot.hpp:129-146 | A table of 32 described entries passes signature, length and checksum and reads back entry by entry. |
| MpTables.EnabledAreRequested | include/boot.hpp:118-126 | Entries past `vcpu_num` stay blank and are read as disabled, so the enabled ones are the requested ones. |
| BootProtocol.HeaderOffsets | include/boot.hpp:157-198 | The packed widths put each of the 39 fields, and the header's end, at the offset the Linux boot protocol publishes for it. |
| BootProtocol.FieldsDoNotOverlap | include/boot.hpp:157-198 | No two fields of `setup_header` share a byte. |
| BootProtocol.FinishedFields | src/vm.cpp:425-436 | By published offset, the header handed over has the loader's seven values, a `setup_sects` that is never 0, and the kernel's own value in every other field. |
| BootProtocol.BootParams.CheckSetupSects | src/boot.cpp:37-43 | `setup_sects` 0 becomes 4 and reports it; anything else is left alone. |
| BootProtocol.BootParams.AddE820Entry | src/boot.cpp:45-56 | The entry lands behind the ones already there, which stay, and the count grows by one. |
| BootProtocol.MapWellFormed | src/vm.cpp:415-423 | The four entries are sorted, disjoint and free of 64-bit wrap, RAM lies inside the memory slot, and every part of the image is in an entry of its kind. |
| BootProtocol.MapClassifies | src/vm.cpp:415-423 | Address by address, what the map calls RAM and what it calls reserved; in neither, below the end of RAM, are exactly the video hole and byte 0xfffff. |
| GuestRam.PrepareGuest | src/main.cpp:40-50 | After RAM setup succeeds with sizes apart, every vCPU before the first whose register ioctls failed starts under the loader contract exactly when the command line has no NUL and the initramfs fits its length field; the others keep their registers. |
| GuestRam.InitVcpuRegs | src/vm.cpp:471-478 | Every vCPU before the first failure gets RIP, RSI and RFLAGS and keeps its other registers, the rest are untouched, and the result is 1 exactly when there is a failure. |
| GuestRam.InitRam | src/vm.cpp:324-469 | On every path RAM is the old RAM with the listed writes (what they leave is `LoadedSoFar`, `LoaderContract` and `NothingElse`), and the result is failure without a header, abort for a 64-bit boot, else success exactly for a loadable kernel. |
| GuestRam.LoadedSoFar | src/vm.cpp:364-451 | However `initRAM` ends, the MP tables, the initramfs and the command line read back, and once the header was good `boot_params` too. |
| GuestRam.NothingElse | src/vm.cpp:364-457 | However it ends, no byte outside the parts named by address and length changes. |
| GuestRam.ValidIffHdrS | src/boot.cpp:33-35 | The header test passes if and only if the file has the characters "HdrS" at 0x202. |
| GuestRam.ResultExplained | src/vm.cpp:391-451 | It succeeds if and only if the file holds a whole header, has "HdrS" at 0x202, is booted in 32-bit mode and has all its setup sectors. |
| GuestRam.FitsExactly | src/vm.cpp:364-457 | Three comparisons of file sizes with the RAM size say exactly when no write of `initRAM` leaves RAM. |
| GuestRam.LoaderContract | src/vm.cpp:364-457 | From RSI the guest reads the exact command line, initramfs and e820 map, every header field as it should be and zeros elsewhere, and finds the kernel payload at RIP, if and only if the command line has no NUL and the initramfs is below 4 GiB; the MP tables read back too. |
| GuestRam.ContractLimits | src/vm.cpp:432-435 | No memory content at all could meet the contract for a command line with a NUL or an initramfs of 4 GiB. |
| GuestRam.SurvivesIffApart | src/vm.cpp:364-457 | For a given kernel and lengths, every part of the image is whole for all command lines and initramfs files if and only if the sizes are apart. |
| GuestRam.ImageSurvives | src/vm.cpp:364-462 | With sizes apart no write disturbs another, however `initRAM` ends. |
| GuestRam.ImageIsItsRegions | src/vm.cpp:364-462 | The same memory results from the writes in any order, and bytes outside them are unchanged. |
| GuestRam.ImageWithPageTable | src/vm.cpp:459-463 | With the page table written as well, at any point, the loader contract and MP tables still hold and CR3 = `BOOT_PAGETABLE_BASE` maps the first 4 GiB onto themselves. |
| GuestRam.FileFields | src/vm.cpp:391-412 | The header is bytes 0x1f1 to 0x26b of the file, and the load offset is (setup_sects+1)*512 with 0 read as 4. |
| Bytes.SurviveIffAgree | src/vm.cpp:364-462 | All writes of a list read back if and only if no two of them want different bytes at one address. |
| Bytes.OrderIrrelevant | src/vm.cpp:364-462 | Writes that agree leave the same memory in any order. |
| Bytes.DecodeEncode | include/boot.hpp:103-222 | Reading a little-endian field gives the value stored in it. |
| Pio.Register | src/vm.cpp:169-182 | In both directions exactly the ports of the range change, to the handlers given. |
| Pio.InitTable | src/vm.cpp:184-258 | After the registrations of `initPIOHandler`, in order, each port and direction has the handler of the last range that contains it. |
| Pio.DisjointCommute | src/vm.cpp:169-182 | Registrations of disjoint ranges may be exchanged anywhere in the list. |
| Pio.PortMapHolds | src/vm.cpp:184-258 | For any order of the devices, CMOS owns 0x70-0x71, POST 0x80-0x11F and COM1 0x3F8-0x3FF, and every other port has the owner the map lists. |
| Cmos.CMOS.constructor | include/cmos.hpp:66-68 | All 128 cells are 0. |
| Cmos.CMOS.Read | src/cmos.cpp:18-108 | State, reply and code are those of `ReadPort`, whose replies `ReadsLastStored`, `StatusReads` and `TimeReadsBack` give; a data read never changes a cell and leaves 0x0D selected. |
| Cmos.CMOS.Write | src/cmos.cpp:110-134 | State and code are those of `WritePort`; the index stays below 128. |
| Cmos.StoreFollowsHistory | src/cmos.cpp:110-134 | After any history the selected register and every cell are those the history's select and store pairs leave, zero writes to the shutdown register dropped. |
| Cmos.AccessOutcome | src/cmos.cpp:18-134 | Exactly one-byte accesses to the two ports are served, a refused one changes nothing, no write changes the guest's byte, and port 0x70 reads as the selected register. |
| Cmos.StatusReads | src/cmos.cpp:72-89 | After any history the status registers read, bit by bit: no update in progress, divider 2, rate 6; 24-hour BCD mode with every enable clear; no interrupt; only the valid-RAM bit. |
| Cmos.TimeReadsBack | src/cmos.cpp:37-65 | After any history each clock register shows the host's value in two decimal digits if and only if it has at most two; month and week day unshifted. |
| Cmos.YearReadsBack | src/cmos.cpp:67-94 | The century and year registers always hold decimal digits, and together decode to the host's year if and only if it is 1900 to 9999, or earlier, from 0 on, and ends in 00 or 01. |
| Cmos.ReadsLastStored | src/cmos.cpp:33-102 | Selecting a storage-backed register and reading it returns the last byte stored there, or 0; what any other register reads does not depend on the history. |
| Cmos.UnselectedWriteIsHidden | src/cmos.cpp:125-127 | A write made without selecting again is never observable. |
| Cmos.HiddenCells | src/cmos.cpp:34-98 | Cells behind computed registers can differ without any access run showing it. |
| Machine.Vcpu.constructor | src/vm.cpp:264-279 | After machine setup the handler table is the port map, CMOS has all cells 0, COM1 all registers 0 and an empty queue, and nothing has reached the host. |
| Machine.Vcpu.CallHandler | src/vcpu.cpp:443-446 | The call through the table reaches the device that owns the port and changes no other. |
| Machine.Vcpu.RunOnce | src/vcpu.cpp:429-487 | Devices, effects and the guest's byte are those of the exit's calls, which `CallsAreAskedFor` and `BufferPassesOn` describe, and 0 is returned exactly when the run goes on. |
| Machine.Vcpu.RunLoop | src/vcpu.cpp:503-509 | The run goes on through exactly the exits taken, and stops at the next one if any is left. |
| Machine.CallsAreAskedFor | src/vcpu.cpp:441-451 | Over any run the calls made are, in order, the ones its events ask for, one for each repetition of an I/O exit with its port, direction and size; all of them while the run goes on; stopped, they end with the one call that failed or where an exit stopped it. |
| Machine.RunsOnIffAllDone | src/vcpu.cpp:429-451 | A run goes on if and only if every call asked for was made, none failed and no exit asked to stop. |
| Machine.BufferPassesOn | src/vcpu.cpp:442-447 | The first call of an I/O exit gets the guest's byte, each later one what the call before left. |
| Machine.BufferHandedBack | src/vcpu.cpp:441-451 | An I/O exit hands back the last reply, or the guest's own byte if nothing was called. |
| Machine.DevicesAreIsolated | src/vcpu.cpp:441-451 | Over any run, CMOS ends in the state and gave the replies of its own accesses alone, COM1 likewise with its stdin bytes; all that reached the host is COM1's doing, in order; only a device read changes the guest's byte. |
| Machine.CmosNonInterference | src/vcpu.cpp:441-451 | Two runs with the same CMOS calls are the same to the CMOS, whatever else they do. |
| Machine.WholeRunLaws | src/vm.cpp:243-252 | So the device laws hold in the machine: the bytes it puts on stdout are COM1's own transmissions, and a CMOS cell holds the last byte of the CMOS's own stores. |
| Machine.RunsWhileZero | src/vcpu.cpp:503-509 | A run goes on if and only if every handler call returned 0 and no exit asked to stop. |
| Machine.RunsUntilStopped | src/vcpu.cpp:429-451 | While host calls succeed a run goes on if and only if no exit asked to stop and no access went to an unclaimed port, to the reset generator, or to the CMOS with more than a byte. |

## Left out

- UartThreads.NoLostInterrupt: assumes `KVM_IRQ_LINE` and the host `write` succeed, and treats each register as an atomic byte; the mutex orders what the proof needs.
- UartThreads.SoloWrite: covers successful host calls only; `Uart.COM1.Write` also covers the failing ones.
- UartThreads: the several loads of MCR in one MSR read are one step, and a store to DLL or DLH is one step with the LCR load before it, since nothing reads them.
- GuestRam.InitRam: files are byte sequences read whole; requires that no write leaves the RAM mapping (`Fits`), which the source does not check; `vcpu_num` above 32 would overrun `processor_entry`.
- GuestRam.PrepareGuest: of `initMachine` only the register setup and the boot-mode assertion of `initVcpuSregs` are there; its other KVM calls are taken to succeed.
- GuestRam.ImageWithPageTable: the source asserts the 64-bit path off before it writes a page table; the lemma composes the two by themselves.
- Paging.IdentityMap: of `InitSregs` only CR3, 4-level paging and EFER.NXE clear are used; CR0, segments and what the cache attributes do are not modelled.
- Cmos.CMOS.constructor: `index` has no first value in the source, so it is a parameter below 128; the clock is an input, and month and week day go out unshifted as in the source.
- Pio.PortMapHolds: port 0xFFFF is outside the table (include/pio.hpp:19) and excluded.
- Machine.Vcpu.RunOnce: the exits are inputs; every repetition of an I/O exit uses the same data address, as in the source, so elements of a string transfer are not modelled. The `GUEST_DEBUG` build is left out.
- Machine.Run: one access is one event there; interleaving inside an access is the subject of `UartThreads`.
- Bit operations are written as arithmetic on bytes; `Bytes.MaskTests`, `Bytes.Mask4Test`, `Bytes.Mask8Test`, `Bytes.HighMaskTests`, `Bytes.MaskRemainders` and `Bytes.DisjointBits` justify it.
- KVM ioctls, mmap, CPUID, terminal setup, logging and register dumps: foreign calls and host output.
- PCI (src/pci.cpp): wired to no port.
- Liveness, such as the guest serving an interrupt: it depends on the guest and the host scheduler.

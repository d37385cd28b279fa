/**
 * The start-up sequence of the PSoC 6 QSPI XIP example (main.c): fill a
 * pattern buffer, erase the second sector of the external flash, read it,
 * write the pattern, read it back, compare, switch the SMIF block to XIP
 * mode, and check that a string and a function placed in external memory lie
 * at or above the memory's mapped base address.  Every check is fail-stop:
 * the LED is turned on and nothing after it runs.
 */
module XipExample {
  import opened QspiFlash

  /** Bytes written and read back (PACKET_SIZE). */
  const PACKET_SIZE: nat := 64
  /** Bytes per console line in print_array (NUM_BYTES_PER_LINE). */
  const NUM_BYTES_PER_LINE: nat := 16

  datatype Option<T> = None | Some(value: T)

  /** Where the sequence stands; Failed is absorbing. */
  datatype Phase = Init | Erased | Written | Verified | Xip | RefsChecked | Steady | Failed

  /** The steps of main() after the board set-up, in program order. */
  datatype Step =
    | FlashInit      // cy_serial_flash_qspi_init, checked
    | EraseSector    // erase of the second sector, checked
    | ReadErased     // read after erase, checked
    | WritePattern   // write of txBuffer, checked
    | ReadBack       // read back into rxBuffer, checked
    | Compare        // memcmp of the two buffers, checked
    | EnterXip       // cy_serial_flash_qspi_enable_xip(true), unchecked
    | CheckString    // check_address of hi_word
    | PrintString    // dereference of hi_word
    | CheckFunction  // check_address of print_from_external_memory
    | CallFunction   // call of print_from_external_memory
    | Finish         // final success message, then the LED blink loop

  const Protocol: seq<Step> := [FlashInit, EraseSector, ReadErased, WritePattern, ReadBack, Compare,
                                EnterXip, CheckString, PrintString, CheckFunction, CallFunction, Finish]

  /** Index of EnterXip in Protocol. */
  const XIP_STEP: nat := 6

  /** The phase reached once the first n steps of Protocol have all passed. */
  function PhaseAfter(n: nat): Phase
  {
    if n <= 1 then Init
    else if n <= 3 then Erased
    else if n <= 5 then Written
    else if n == 6 then Verified
    else if n <= 9 then Xip
    else if n <= 11 then RefsChecked
    else Steady
  }

  /** What check_status or check_address reports before halting: the step and the status code or address. */
  datatype Fault = Fault(step: Step, detail: uint32)

  /** The statuses the flash driver reports for each of its checked calls. */
  datatype Replies = Replies(init: uint32, erase: uint32, readErased: uint32, write: uint32, readBack: uint32)

  /** The code printed when `step` fails: the driver's status, memcmp's result as a uint32, or the address. */
  function Detail(step: Step, r: Replies, diff: int, hiWord: uint32, printFunction: uint32): uint32
  {
    match step
    case FlashInit => r.init
    case EraseSector => r.erase
    case ReadErased => r.readErased
    case WritePattern => r.write
    case ReadBack => r.readBack
    case Compare => AsUint32(diff)
    case CheckString => hiWord
    case CheckFunction => printFunction
    case _ => 0
  }

  predicate AllSucceed(r: Replies)
  {
    r.init == 0 && r.erase == 0 && r.readErased == 0 && r.write == 0 && r.readBack == 0
  }

  /**
   * Whether each step of Protocol lets the sequence go on: a status of zero,
   * equal buffers, an address at or above the base; the unchecked steps always do.
   */
  function Guards(r: Replies, matched: bool, stringOk: bool, functionOk: bool): seq<bool>
  {
    [r.init == 0, r.erase == 0, r.readErased == 0, r.write == 0, r.readBack == 0, matched,
     true, stringOk, true, functionOk, true, true]
  }

  /**
   * Number of steps issued under fail-stop: steps run while their guards pass,
   * and the first step whose guard fails is the last one issued.
   */
  function Issued(g: seq<bool>): (n: nat)
    ensures n <= |g|
    ensures g != [] ==> 0 < n
  {
    if g == [] then 0 else if g[0] then 1 + Issued(g[1..]) else 1
  }

  /** Step i is issued exactly when every earlier step passed its guard. */
  lemma {:induction false} IssuedIff(g: seq<bool>, i: nat)
    requires i < |g|
    ensures i < Issued(g) <==> forall j | 0 <= j < i :: g[j]
  {
    if 0 < i && g[0] {
      IssuedIff(g[1..], i - 1);
      assert forall j | 0 <= j < i - 1 :: g[1..][j] == g[j + 1];
    }
  }

  /** The first failing guard, at k, stops the sequence after k + 1 steps. */
  lemma IssuedStops(g: seq<bool>, k: nat)
    requires k < |g| && !g[k] && forall j | 0 <= j < k :: g[j]
    ensures Issued(g) == k + 1
  {
    IssuedIff(g, k);
    if k + 1 < |g| {
      IssuedIff(g, k + 1);
    }
  }

  /** When every guard passes, every step is issued. */
  lemma {:induction false} IssuedAll(g: seq<bool>)
    requires forall j | 0 <= j < |g| :: g[j]
    ensures Issued(g) == |g|
  {
    if g != [] {
      IssuedIff(g, |g| - 1);
    }
  }

  /**
   * How many steps main() issues, read off its code: it stops right after the
   * first check that fails, and runs all twelve steps when none does.
   */
  function StepsRun(r: Replies, matched: bool, stringOk: bool, functionOk: bool): nat
  {
    if r.init != 0 then 1
    else if r.erase != 0 then 2
    else if r.readErased != 0 then 3
    else if r.write != 0 then 4
    else if r.readBack != 0 then 5
    else if !matched then 6
    else if !stringOk then 8
    else if !functionOk then 10
    else 12
  }

  /** Init, erase or the read of the erased sector fails: the sequence stops there. */
  lemma EraseFailureIsFailStop(r: Replies, matched: bool, stringOk: bool, functionOk: bool)
    requires r.init != 0 || r.erase != 0 || r.readErased != 0
    ensures StepsRun(r, matched, stringOk, functionOk) == Issued(Guards(r, matched, stringOk, functionOk))
  {
    var g := Guards(r, matched, stringOk, functionOk);
    if r.init != 0 { IssuedStops(g, 0); }
    else if r.erase != 0 { IssuedStops(g, 1); }
    else { IssuedStops(g, 2); }
  }

  /** The write, the read-back or the compare fails: the sequence stops there. */
  lemma ProgramFailureIsFailStop(r: Replies, matched: bool, stringOk: bool, functionOk: bool)
    requires r.init == 0 && r.erase == 0 && r.readErased == 0 && !(AllSucceed(r) && matched)
    ensures StepsRun(r, matched, stringOk, functionOk) == Issued(Guards(r, matched, stringOk, functionOk))
  {
    var g := Guards(r, matched, stringOk, functionOk);
    if r.write != 0 { IssuedStops(g, 3); }
    else if r.readBack != 0 { IssuedStops(g, 4); }
    else { IssuedStops(g, 5); }
  }

  /** The flash steps pass: the sequence stops at the first address check that fails. */
  lemma ReferenceCheckIsFailStop(r: Replies, matched: bool, stringOk: bool, functionOk: bool)
    requires AllSucceed(r) && matched
    ensures StepsRun(r, matched, stringOk, functionOk) == Issued(Guards(r, matched, stringOk, functionOk))
  {
    var g := Guards(r, matched, stringOk, functionOk);
    if !stringOk { IssuedStops(g, 7); }
    else if !functionOk { IssuedStops(g, 9); }
    else { IssuedAll(g); }
  }

  /** main()'s step count is the fail-stop rule applied to its guards. */
  lemma StepsRunIsFailStop(r: Replies, matched: bool, stringOk: bool, functionOk: bool)
    ensures StepsRun(r, matched, stringOk, functionOk) == Issued(Guards(r, matched, stringOk, functionOk))
  {
    if AllSucceed(r) && matched {
      ReferenceCheckIsFailStop(r, matched, stringOk, functionOk);
    } else if r.init != 0 || r.erase != 0 || r.readErased != 0 {
      EraseFailureIsFailStop(r, matched, stringOk, functionOk);
    } else {
      ProgramFailureIsFailStop(r, matched, stringOk, functionOk);
    }
  }

  /** The write pattern: byte i is i & 0xFF, which for an unsigned index is i % 256. */
  function Pattern(n: nat): seq<uint8>
  {
    seq(n, i => i % 256)
  }

  /**
   * memcmp over two equally long byte buffers, as unsigned chars: the
   * difference of the first pair of bytes that differ, or 0.
   */
  function MemCmp(a: seq<uint8>, b: seq<uint8>): (r: int)
    requires |a| == |b|
    ensures -255 <= r <= 255
    ensures r == 0 <==> a == b
  {
    if a == [] then 0
    else if a[0] != b[0] then a[0] - b[0]
    else
      assert a == [a[0]] + a[1..] && b == [b[0]] + b[1..];
      MemCmp(a[1..], b[1..])
  }

  /** The implicit conversion of an int argument to a uint32_t parameter (modulo 2^32). */
  function AsUint32(x: int): (u: uint32)
    ensures -0x1_0000_0000 < x < 0x1_0000_0000 ==> (u == 0 <==> x == 0)
    ensures 0 <= x < 0x1_0000_0000 ==> u == x
  {
    x % 0x1_0000_0000
  }

  /** The test inside check_address: an address passes when it is not below the base. */
  predicate AtOrAboveBase(addr: uint32, baseAddress: uint32)
  {
    baseAddress <= addr
  }

  /** One item of print_array's output: a byte as "0x%02X " or a line break. */
  datatype Glyph = Hex(value: uint8) | LineBreak

  /** print_array's output for the buffer s (after its two header lines). */
  function Layout(s: seq<uint8>): seq<Glyph>
  {
    if s == [] then []
    else Layout(s[..|s| - 1]) + [Hex(s[|s| - 1])]
         + (if |s| % NUM_BYTES_PER_LINE == 0 then [LineBreak] else [])
  }

  /** print_array: one hex item per byte and a line break after every 16th byte. */
  method PrintArray(buf: array<uint8>, size: uint32) returns (out: seq<Glyph>)
    requires size <= buf.Length
    ensures out == Layout(buf[..size])
  {
    out := [];
    var index: uint32 := 0;
    while index < size
      invariant index <= size
      invariant out == Layout(buf[..index])
    {
      assert buf[..index + 1][..index] == buf[..index];
      out := out + [Hex(buf[index])];
      if (index + 1) % NUM_BYTES_PER_LINE == 0 {
        out := out + [LineBreak];
      }
      index := index + 1;
    }
  }

  /** size bytes produce exactly size / 16 line breaks. */
  lemma {:induction false} LayoutBreaks(s: seq<uint8>)
    ensures multiset(Layout(s))[LineBreak] == |s| / NUM_BYTES_PER_LINE
  {
    if s != [] {
      LayoutBreaks(s[..|s| - 1]);
    }
  }

  /**
   * Where each item lands: byte i is item i + i / 16, and a byte whose 1-based
   * index is a multiple of 16 is followed by a line break.
   */
  lemma {:induction false} LayoutPosition(s: seq<uint8>, i: nat)
    requires i < |s|
    ensures |Layout(s)| == |s| + |s| / NUM_BYTES_PER_LINE
    ensures Layout(s)[i + i / NUM_BYTES_PER_LINE] == Hex(s[i])
    ensures (i + 1) % NUM_BYTES_PER_LINE == 0 ==> Layout(s)[i + i / NUM_BYTES_PER_LINE + 1] == LineBreak
  {
    var init := s[..|s| - 1];
    if i < |s| - 1 {
      LayoutPosition(init, i);
      if (i + 1) % NUM_BYTES_PER_LINE == 0 {
        assert (i + 1) / NUM_BYTES_PER_LINE <= |init| / NUM_BYTES_PER_LINE;
      }
    } else if init != [] {
      LayoutPosition(init, 0);
    }
  }

  /** The state of main(): the flash it drives, its two buffers, the target address and the LED. */
  class Sequencer {
    const flash: Device
    /** The pattern written to the flash. */
    const txBuffer: array<uint8>
    /** What is read back from the flash. */
    const rxBuffer: array<uint8>
    var extMemAddress: uint32
    var sectorSize: uint32
    var phase: Phase
    /** The user LED; held on after a failure, toggled in the steady state. */
    var ledOn: bool
    /** The diagnostic of the failure that halted the sequence. */
    var fault: Option<Fault>
    /** The steps issued so far. */
    ghost var trace: seq<Step>

    ghost predicate Valid()
      reads this, flash
    {
      && flash.Valid()
      && txBuffer.Length == PACKET_SIZE && rxBuffer.Length == PACKET_SIZE && txBuffer != rxBuffer
      && PACKET_SIZE <= flash.sectorSize
      && |trace| <= |Protocol| && trace == Protocol[..|trace|]
      && (phase == Failed <==> fault.Some?)
      && (phase == Failed ==> 0 < |trace| && fault.value.step == trace[|trace| - 1])
      && (phase != Failed ==> phase == PhaseAfter(|trace|))
      && (phase != Steady ==> (ledOn <==> phase == Failed))
      && (flash.xipEnabled <==> XIP_STEP < |trace|)
    }

    /** Buffers and target as main() leaves them before the erase. */
    ghost predicate Prepared()
      reads this, txBuffer, rxBuffer
    {
      && flash.Shaped()
      && extMemAddress == flash.EraseSize(0) && sectorSize == flash.EraseSize(0)
      && txBuffer[..] == Pattern(PACKET_SIZE)
    }

    /** The halted state after a failing check at `step`. */
    ghost predicate Halted(step: Step, detail: uint32)
      reads this
    {
      phase == Failed && ledOn && fault == Some(Fault(step, detail))
    }

    /** The state at reset: the LED off, the SMIF block in command mode. */
    constructor (flash: Device)
      requires flash.Valid() && PACKET_SIZE <= flash.sectorSize && !flash.xipEnabled
      ensures Valid() && this.flash == flash && fresh(txBuffer) && fresh(rxBuffer)
      ensures phase == Init && trace == [] && !ledOn && fault == None
    {
      this.flash := flash;
      txBuffer := new uint8[PACKET_SIZE];
      rxBuffer := new uint8[PACKET_SIZE];
      extMemAddress := 0;
      sectorSize := 0;
      phase := Init;
      ledOn := false;
      fault := None;
      trace := [];
    }

    /** check_status: returns on a zero status; otherwise turns the LED on and halts. */
    method CheckStatus(step: Step, status: uint32)
      requires phase != Failed
      modifies this`phase, this`ledOn, this`fault
      ensures status == 0 ==> phase == old(phase) && ledOn == old(ledOn) && fault == old(fault)
      ensures status != 0 ==> Halted(step, status)
    {
      if status != 0 {
        ledOn := true;
        phase := Failed;
        fault := Some(Fault(step, status));
      }
    }

    /** check_address: returns when addr is at or above the base; otherwise turns the LED on and halts. */
    method CheckAddress(step: Step, addr: uint32)
      requires phase != Failed
      modifies this`phase, this`ledOn, this`fault
      ensures AtOrAboveBase(addr, flash.baseAddress) ==>
                phase == old(phase) && ledOn == old(ledOn) && fault == old(fault)
      ensures !AtOrAboveBase(addr, flash.baseAddress) ==> Halted(step, addr)
    {
      if flash.baseAddress > addr {
        ledOn := true;
        phase := Failed;
        fault := Some(Fault(step, addr));
      }
    }

    /** The loop that sets txBuffer[i] to i & 0xFF and clears rxBuffer. */
    method InitBuffers()
      requires txBuffer.Length == PACKET_SIZE && rxBuffer.Length == PACKET_SIZE && txBuffer != rxBuffer
      modifies txBuffer, rxBuffer
      ensures forall i | 0 <= i < PACKET_SIZE :: txBuffer[i] == i % 256 && rxBuffer[i] == 0
      ensures txBuffer[..] == Pattern(PACKET_SIZE)
    {
      var index: uint32 := 0;
      while index < PACKET_SIZE
        invariant index <= PACKET_SIZE
        invariant forall i | 0 <= i < index :: txBuffer[i] == i % 256 && rxBuffer[i] == 0
      {
        txBuffer[index] := index % 256;
        rxBuffer[index] := 0;
        index := index + 1;
      }
    }

    /** Flash initialisation check, buffer set-up and the choice of the second sector. */
    method Prepare(initStatus: uint32)
      requires Valid() && phase == Init && trace == []
      modifies this`extMemAddress, this`sectorSize, this`phase, this`ledOn, this`fault, this`trace
      modifies txBuffer, rxBuffer
      ensures Valid() && trace == Protocol[..1]
      ensures initStatus == 0 ==> phase == Init && Prepared()
      ensures initStatus == 0 ==> forall i | 0 <= i < PACKET_SIZE :: rxBuffer[i] == 0
      ensures initStatus != 0 ==> Halted(FlashInit, initStatus)
    {
      trace := trace + [FlashInit];
      CheckStatus(FlashInit, initStatus);
      if phase == Failed {
        return;
      }
      InitBuffers();
      extMemAddress := 0;
      sectorSize := flash.EraseSize(extMemAddress);
      extMemAddress := sectorSize;
    }

    /** Erase one sector at the target: the second sector of the device. */
    method EraseTarget(reported: uint32)
      requires Valid() && phase == Init && trace == Protocol[..1] && Prepared()
      modifies this`phase, this`ledOn, this`fault, this`trace, flash`mem
      ensures Valid() && trace == Protocol[..2]
      ensures flash.mem == if reported == 0 then AfterErase(old(flash.mem), extMemAddress, sectorSize) else old(flash.mem)
      ensures reported == 0 ==> phase == Erased
      ensures reported != 0 ==> Halted(EraseSector, reported)
    {
      trace := trace + [EraseSector];
      var result := flash.Erase(extMemAddress, sectorSize, reported);
      CheckStatus(EraseSector, result);
      if phase == Failed {
        return;
      }
      phase := Erased;
    }

    /** Read PACKET_SIZE bytes of the erased sector into rxBuffer (shown on the console only). */
    method ReadErasedSector(reported: uint32)
      requires Valid() && phase == Erased && trace == Protocol[..2] && Prepared()
      modifies this`phase, this`ledOn, this`fault, this`trace, rxBuffer
      ensures Valid() && trace == Protocol[..3]
      ensures reported == 0 ==> phase == Erased && rxBuffer[..] == Observed(flash.mem, flash.stuck, extMemAddress, PACKET_SIZE)
      ensures reported != 0 ==> Halted(ReadErased, reported)
    {
      trace := trace + [ReadErased];
      var result := flash.Read(extMemAddress, PACKET_SIZE, rxBuffer, reported);
      CheckStatus(ReadErased, result);
    }

    /** Write txBuffer at the target. */
    method WriteBuffer(reported: uint32)
      requires Valid() && phase == Erased && trace == Protocol[..3] && Prepared()
      modifies this`phase, this`ledOn, this`fault, this`trace, flash`mem
      ensures Valid() && trace == Protocol[..4]
      ensures flash.mem == if reported == 0 then AfterWrite(old(flash.mem), extMemAddress, txBuffer[..]) else old(flash.mem)
      ensures reported == 0 ==> phase == Written
      ensures reported != 0 ==> Halted(WritePattern, reported)
    {
      trace := trace + [WritePattern];
      var result := flash.Write(extMemAddress, PACKET_SIZE, txBuffer, reported);
      CheckStatus(WritePattern, result);
      if phase == Failed {
        return;
      }
      phase := Written;
    }

    /**
     * Read PACKET_SIZE bytes at the target back into rxBuffer.  When the target
     * was erased and then programmed with txBuffer, the read-back equals
     * txBuffer exactly when no defective cell there disagrees with it.
     */
    method ReadBackBuffer(reported: uint32, ghost before: seq<uint8>)
      requires Valid() && phase == Written && trace == Protocol[..4] && Prepared()
      requires |before| == flash.size
      requires flash.mem == AfterWrite(AfterErase(before, extMemAddress, sectorSize), extMemAddress, txBuffer[..])
      modifies this`phase, this`ledOn, this`fault, this`trace, rxBuffer
      ensures Valid() && trace == Protocol[..5]
      ensures reported == 0 ==> phase == Written && rxBuffer[..] == Observed(flash.mem, flash.stuck, extMemAddress, PACKET_SIZE)
      ensures reported == 0 ==> (rxBuffer[..] == txBuffer[..] <==> StuckAgrees(flash.stuck, extMemAddress, txBuffer[..]))
      ensures reported != 0 ==> Halted(ReadBack, reported)
    {
      trace := trace + [ReadBack];
      var result := flash.Read(extMemAddress, PACKET_SIZE, rxBuffer, reported);
      CheckStatus(ReadBack, result);
      ReadBackRoundTrip(before, flash.stuck, extMemAddress, sectorSize, txBuffer[..]);
    }

    /** check_status of memcmp(txBuffer, rxBuffer, PACKET_SIZE): any differing byte halts. */
    method Verify()
      requires Valid() && phase == Written && trace == Protocol[..5]
      modifies this`phase, this`ledOn, this`fault, this`trace
      ensures Valid() && trace == Protocol[..6]
      ensures txBuffer[..] == rxBuffer[..] ==> phase == Verified
      ensures txBuffer[..] != rxBuffer[..] ==> Halted(Compare, AsUint32(MemCmp(txBuffer[..], rxBuffer[..])))
    {
      trace := trace + [Compare];
      var diff := MemCmp(txBuffer[..], rxBuffer[..]);
      CheckStatus(Compare, AsUint32(diff));
      if phase == Failed {
        return;
      }
      phase := Verified;
    }

    /** cy_serial_flash_qspi_enable_xip(true). */
    method EnterXipMode()
      requires Valid() && phase == Verified && trace == Protocol[..6]
      modifies this`phase, this`trace, flash`xipEnabled
      ensures Valid() && trace == Protocol[..7] && phase == Xip && flash.xipEnabled
    {
      trace := trace + [EnterXip];
      flash.EnableXip(true);
      phase := Xip;
    }

    /**
     * check_address of hi_word, its dereference, check_address of
     * print_from_external_memory and the call of it, in that order.
     */
    method CheckReferences(hiWord: uint32, printFunction: uint32)
      requires Valid() && phase == Xip && trace == Protocol[..7]
      modifies this`phase, this`ledOn, this`fault, this`trace
      ensures Valid()
      ensures !AtOrAboveBase(hiWord, flash.baseAddress) ==>
                trace == Protocol[..8] && Halted(CheckString, hiWord)
      ensures AtOrAboveBase(hiWord, flash.baseAddress) && !AtOrAboveBase(printFunction, flash.baseAddress) ==>
                trace == Protocol[..10] && Halted(CheckFunction, printFunction)
      ensures AtOrAboveBase(hiWord, flash.baseAddress) && AtOrAboveBase(printFunction, flash.baseAddress) ==>
                trace == Protocol[..11] && phase == RefsChecked
    {
      trace := trace + [CheckString];
      CheckAddress(CheckString, hiWord);
      if phase == Failed {
        return;
      }
      trace := trace + [PrintString, CheckFunction];
      CheckAddress(CheckFunction, printFunction);
      if phase == Failed {
        return;
      }
      phase := RefsChecked;
      trace := trace + [CallFunction];
    }

    /** The final success message; the LED blink loop follows. */
    method Conclude()
      requires Valid() && phase == RefsChecked && trace == Protocol[..11]
      modifies this`phase, this`trace
      ensures Valid() && trace == Protocol && phase == Steady
    {
      trace := trace + [Step.Finish];
      phase := Steady;
    }

    /** One pass of the blink loop: toggle the LED (the one-second delay is not modelled). */
    method Blink()
      requires Valid() && phase == Steady
      modifies this`ledOn
      ensures Valid() && ledOn == !old(ledOn)
    {
      ledOn := !ledOn;
    }

    /**
     * main() from the flash initialisation to the read after the erase: each
     * step runs only after the previous one reported success.
     */
    method EraseAndProbe(replies: Replies)
      requires Valid() && phase == Init && trace == [] && !flash.xipEnabled
      modifies this`extMemAddress, this`sectorSize, this`phase, this`ledOn, this`fault, this`trace
      modifies txBuffer, rxBuffer, flash`mem
      ensures Valid() && !flash.xipEnabled
      ensures phase == Erased || phase == Failed
      ensures phase == Erased <==> replies.init == 0 && replies.erase == 0 && replies.readErased == 0
      ensures phase == Failed ==>
                trace == Protocol[..if replies.init != 0 then 1 else if replies.erase != 0 then 2 else 3]
      ensures phase == Failed ==> fault.value.detail == Detail(fault.value.step, replies, 0, 0, 0)
      ensures phase == Erased ==> trace == Protocol[..3] && Prepared()
      ensures phase == Erased ==> forall i | 0 <= i < PACKET_SIZE && flash.EraseSize(0) + i !in flash.stuck ::
                                    rxBuffer[i] == ERASED_BYTE
      ensures phase == Erased ==> flash.mem == AfterErase(old(flash.mem), flash.EraseSize(0), flash.EraseSize(0))
    {
      Prepare(replies.init);
      if phase == Failed {
        return;
      }
      EraseTarget(replies.erase);
      if phase == Failed {
        return;
      }
      ReadErasedSector(replies.readErased);
    }

    /**
     * Write txBuffer to the erased target, read it back and compare, each step
     * only after the previous one reported success.
     */
    method ProgramAndCompare(replies: Replies, ghost before: seq<uint8>)
      requires Valid() && phase == Erased && trace == Protocol[..3] && Prepared()
      requires |before| == flash.size && flash.mem == AfterErase(before, extMemAddress, sectorSize)
      modifies this`phase, this`ledOn, this`fault, this`trace, rxBuffer, flash`mem
      ensures Valid() && Prepared()
      ensures phase == Verified || phase == Failed
      ensures phase == Failed ==>
                trace == Protocol[..if replies.write != 0 then 4 else if replies.readBack != 0 then 5 else 6]
      ensures phase == Failed ==>
                fault.value.detail == Detail(fault.value.step, replies, MemCmp(txBuffer[..], rxBuffer[..]), 0, 0)
      ensures phase == Verified <==>
                replies.write == 0 && replies.readBack == 0 && StuckAgrees(flash.stuck, extMemAddress, txBuffer[..])
      ensures phase == Verified ==> trace == Protocol[..6] && txBuffer[..] == rxBuffer[..]
      ensures phase == Verified ==> flash.mem == AfterWrite(old(flash.mem), extMemAddress, txBuffer[..])
      ensures replies.write == 0 && replies.readBack == 0 ==>
                rxBuffer[..] == Observed(flash.mem, flash.stuck, extMemAddress, PACKET_SIZE)
      ensures replies.write == 0 && replies.readBack == 0 ==> (phase == Verified <==> txBuffer[..] == rxBuffer[..])
      ensures phase == Failed && fault.value.step == Compare ==> txBuffer[..] != rxBuffer[..] && fault.value.detail != 0
    {
      WriteBuffer(replies.write);
      if phase == Failed {
        return;
      }
      ReadBackBuffer(replies.readBack, before);
      if phase == Failed {
        return;
      }
      Verify();
    }

    /**
     * main() from the flash initialisation to the memcmp check: erase, read,
     * write and read back the second sector and compare the two buffers.
     */
    method WriteAndVerify(replies: Replies)
      requires Valid() && phase == Init && trace == [] && !flash.xipEnabled
      modifies this`extMemAddress, this`sectorSize, this`phase, this`ledOn, this`fault, this`trace
      modifies txBuffer, rxBuffer, flash`mem
      ensures Valid() && !flash.xipEnabled
      ensures phase == Verified || phase == Failed
      ensures phase == Failed ==>
                trace == Protocol[..StepsRun(replies, StuckAgrees(flash.stuck, flash.EraseSize(0), Pattern(PACKET_SIZE)), true, true)]
      ensures phase == Failed ==>
                fault.value.detail == Detail(fault.value.step, replies, MemCmp(txBuffer[..], rxBuffer[..]), 0, 0)
      ensures phase == Verified <==> AllSucceed(replies) && StuckAgrees(flash.stuck, flash.EraseSize(0), Pattern(PACKET_SIZE))
      ensures phase == Verified ==> trace == Protocol[..6] && Prepared() && txBuffer[..] == rxBuffer[..]
      ensures AllSucceed(replies) ==> txBuffer[..] == Pattern(PACKET_SIZE)
      ensures AllSucceed(replies) ==> (phase == Verified <==> txBuffer[..] == rxBuffer[..])
      ensures phase == Failed && fault.value.step == Compare ==> txBuffer[..] != rxBuffer[..] && fault.value.detail != 0
      ensures phase == Verified ==>
                flash.mem == AfterWrite(AfterErase(old(flash.mem), flash.EraseSize(0), flash.EraseSize(0)),
                                        flash.EraseSize(0), Pattern(PACKET_SIZE))
    {
      ghost var before := flash.mem;
      EraseAndProbe(replies);
      if phase == Failed {
        return;
      }
      ProgramAndCompare(replies, before);
    }

    /**
     * main() after a successful compare: enter XIP mode, check the string and
     * then the function, and reach the blink loop only if both lie in external memory.
     */
    method XipAndReferences(hiWord: uint32, printFunction: uint32)
      requires Valid() && phase == Verified && trace == Protocol[..6]
      modifies this`phase, this`ledOn, this`fault, this`trace, flash`xipEnabled
      ensures Valid() && flash.xipEnabled
      ensures txBuffer[..] == old(txBuffer[..]) && rxBuffer[..] == old(rxBuffer[..]) && flash.mem == old(flash.mem)
      ensures phase == Steady || phase == Failed
      ensures phase == Steady ==> !ledOn
      ensures phase == Steady <==> AtOrAboveBase(hiWord, flash.baseAddress) && AtOrAboveBase(printFunction, flash.baseAddress)
      ensures trace == Protocol[..if !AtOrAboveBase(hiWord, flash.baseAddress) then 8
                                  else if !AtOrAboveBase(printFunction, flash.baseAddress) then 10
                                  else 12]
      ensures phase == Failed ==> fault.value.step == CheckString || fault.value.step == CheckFunction
      ensures phase == Failed ==> fault.value.detail == if fault.value.step == CheckString then hiWord else printFunction
    {
      EnterXipMode();
      CheckReferences(hiWord, printFunction);
      if phase == Failed {
        return;
      }
      Conclude();
    }

    /**
     * main() from the flash initialisation to the blink loop.  The steps run in
     * Protocol order and stop at the first failing check (StepsRunIsFailStop); XIP mode is entered
     * only when all five flash calls succeeded and the read-back equals the
     * pattern; the sequence ends in Steady exactly when every check passes.
     */
    method Run(replies: Replies, hiWord: uint32, printFunction: uint32)
      requires Valid() && phase == Init && trace == [] && !flash.xipEnabled
      modifies this`extMemAddress, this`sectorSize, this`phase, this`ledOn, this`fault, this`trace
      modifies txBuffer, rxBuffer, flash`mem, flash`xipEnabled
      ensures Valid()
      ensures phase == Steady || phase == Failed
      ensures phase == Steady ==> !ledOn
      ensures trace == Protocol[..StepsRun(replies,
                                           StuckAgrees(flash.stuck, flash.EraseSize(0), Pattern(PACKET_SIZE)),
                                           AtOrAboveBase(hiWord, flash.baseAddress),
                                           AtOrAboveBase(printFunction, flash.baseAddress))]
      ensures phase == Steady <==>
                AllSucceed(replies) && StuckAgrees(flash.stuck, flash.EraseSize(0), Pattern(PACKET_SIZE))
                && AtOrAboveBase(hiWord, flash.baseAddress) && AtOrAboveBase(printFunction, flash.baseAddress)
      ensures phase == Failed ==>
                fault.value.detail == Detail(fault.value.step, replies, MemCmp(txBuffer[..], rxBuffer[..]), hiWord, printFunction)
      ensures flash.xipEnabled <==> AllSucceed(replies) && StuckAgrees(flash.stuck, flash.EraseSize(0), Pattern(PACKET_SIZE))
      ensures flash.xipEnabled ==> txBuffer[..] == rxBuffer[..] == Pattern(PACKET_SIZE)
      ensures AllSucceed(replies) ==> txBuffer[..] == Pattern(PACKET_SIZE)
      ensures AllSucceed(replies) ==> (flash.xipEnabled <==> rxBuffer[..] == txBuffer[..] == Pattern(PACKET_SIZE))
      ensures phase == Failed && fault.value.step == Compare ==> txBuffer[..] != rxBuffer[..] && fault.value.detail != 0
      ensures flash.xipEnabled ==> extMemAddress == sectorSize == flash.EraseSize(0)
      ensures flash.xipEnabled ==>
                flash.mem == AfterWrite(AfterErase(old(flash.mem), flash.EraseSize(0), flash.EraseSize(0)),
                                        flash.EraseSize(0), Pattern(PACKET_SIZE))
    {
      WriteAndVerify(replies);
      if phase == Failed {
        return;
      }
      XipAndReferences(hiWord, printFunction);
    }
  }
}

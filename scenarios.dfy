/**
 * Clients of the sequencer: the outcomes that follow from Run's contract
 * alone for a 1 MiB device with 4 KiB sectors mapped at 0x1800_0000.
 */
module XipScenarios {
  import opened QspiFlash
  import opened XipExample

  const SIZE: uint32 := 0x10_0000
  const SECTOR: uint32 := 0x1000
  const BASE: uint32 := 0x1800_0000

  method NewSequencer(stuck: map<nat, uint8>) returns (q: Sequencer)
    ensures q.Valid() && q.phase == Init && q.trace == [] && !q.flash.xipEnabled
    ensures q.flash.sectorSize == SECTOR && q.flash.baseAddress == BASE && q.flash.stuck == stuck
    ensures fresh(q) && fresh(q.flash) && fresh(q.txBuffer) && fresh(q.rxBuffer)
  {
    var device := new Device(SIZE, SECTOR, BASE, stuck, seq(SIZE, _ => 0));
    q := new Sequencer(device);
  }

  /** A healthy device and both symbols in external memory: XIP on, steady state. */
  method HealthyDeviceReachesSteady()
  {
    var q := NewSequencer(map[]);
    q.Run(Replies(0, 0, 0, 0, 0), BASE + 0x100, BASE + 0x200);
    assert q.phase == Steady && q.flash.xipEnabled && !q.ledOn;
    assert q.trace == Protocol;
    assert q.rxBuffer[..] == Pattern(PACKET_SIZE);
  }

  /** Byte 37 of the target reads back 0x00: the compare halts before XIP. */
  method MismatchHaltsBeforeXip()
  {
    var q := NewSequencer(map[SECTOR + 37 := 0]);
    assert Pattern(PACKET_SIZE)[37] == 37;
    assert q.flash.stuck[SECTOR + 37] != Pattern(PACKET_SIZE)[SECTOR + 37 - SECTOR];
    q.Run(Replies(0, 0, 0, 0, 0), BASE + 0x100, BASE + 0x200);
    assert q.phase == Failed && q.ledOn && !q.flash.xipEnabled;
    assert q.fault.value.step == Compare && q.fault.value.detail != 0;
    assert q.txBuffer[..] != q.rxBuffer[..];
    assert q.trace == Protocol[..6];
  }

  /** The erase reports 0x05: nothing after the erase is issued. */
  method EraseFailureStopsEverything()
  {
    var q := NewSequencer(map[]);
    q.Run(Replies(0, 0x05, 0, 0, 0), BASE + 0x100, BASE + 0x200);
    assert q.trace == [FlashInit, EraseSector];
    assert q.fault == Some(Fault(EraseSector, 0x05));
    assert q.ledOn && !q.flash.xipEnabled;
  }

  /** The string lies below the base: the function is neither checked nor called. */
  method StringBelowBaseHalts()
  {
    var q := NewSequencer(map[]);
    q.Run(Replies(0, 0, 0, 0, 0), BASE - 4, BASE + 0x200);
    assert q.trace == Protocol[..8];
    assert CheckFunction !in q.trace && CallFunction !in q.trace;
    assert q.fault == Some(Fault(CheckString, BASE - 4));
    assert q.flash.xipEnabled && q.ledOn;
  }
}

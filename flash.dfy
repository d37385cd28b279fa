/**
 * The serial-flash driver that the XIP example drives (cy_serial_flash_qspi_*).
 * Its code is not part of this model: the device is a byte sequence, every
 * call reports a 32-bit status that is an input of the model, and a call
 * whose status is zero has the documented effect (erase sets bytes to 0xFF,
 * write stores bytes, read returns what the cells hold).  Defective cells are
 * modelled as a map from address to the value such a cell always reads back.
 */
module QspiFlash {

  type uint8 = x: int | 0 <= x < 0x100
  type uint32 = x: int | 0 <= x < 0x1_0000_0000

  /** The value of an erased NOR flash byte. */
  const ERASED_BYTE: uint8 := 0xFF

  /** The device contents after erasing [addr, addr + len). */
  function AfterErase(mem: seq<uint8>, addr: nat, len: nat): (m: seq<uint8>)
    requires addr + len <= |mem|
    ensures |m| == |mem|
    ensures forall j | 0 <= j < |m| :: m[j] == if addr <= j < addr + len then ERASED_BYTE else mem[j]
  {
    mem[..addr] + seq(len, _ => ERASED_BYTE) + mem[addr + len..]
  }

  /** The device contents after programming `data` at `addr`. */
  function AfterWrite(mem: seq<uint8>, addr: nat, data: seq<uint8>): (m: seq<uint8>)
    requires addr + |data| <= |mem|
    ensures |m| == |mem|
    ensures forall j | 0 <= j < |m| :: m[j] == if addr <= j < addr + |data| then data[j - addr] else mem[j]
  {
    mem[..addr] + data + mem[addr + |data|..]
  }

  /** What reading the cell at address j returns: a defective cell reads its stuck value. */
  function Cell(mem: seq<uint8>, stuck: map<nat, uint8>, j: nat): uint8
    requires j < |mem|
  {
    if j in stuck then stuck[j] else mem[j]
  }

  /** What a read of [addr, addr + len) returns. */
  function Observed(mem: seq<uint8>, stuck: map<nat, uint8>, addr: nat, len: nat): (r: seq<uint8>)
    requires addr + len <= |mem|
    ensures |r| == len
    ensures forall i | 0 <= i < len :: r[i] == Cell(mem, stuck, addr + i)
  {
    if len == 0 then [] else Observed(mem, stuck, addr, len - 1) + [Cell(mem, stuck, addr + len - 1)]
  }

  /** Every defective cell in [addr, addr + |data|) happens to read back the byte meant for it. */
  ghost predicate StuckAgrees(stuck: map<nat, uint8>, addr: nat, data: seq<uint8>)
  {
    forall j | j in stuck && addr <= j < addr + |data| :: stuck[j] == data[j - addr]
  }

  /**
   * Round trip of the write-verify exercise: after erasing a region that holds
   * `data` and programming `data` into it, reading it back returns `data`
   * exactly when no defective cell in the range disagrees with it.
   */
  lemma ReadBackRoundTrip(mem: seq<uint8>, stuck: map<nat, uint8>, addr: nat, len: nat, data: seq<uint8>)
    requires |data| <= len && addr + len <= |mem|
    ensures Observed(AfterWrite(AfterErase(mem, addr, len), addr, data), stuck, addr, |data|) == data
            <==> StuckAgrees(stuck, addr, data)
  {
    var back := Observed(AfterWrite(AfterErase(mem, addr, len), addr, data), stuck, addr, |data|);
    if back == data {
      forall j | j in stuck && addr <= j < addr + |data|
        ensures stuck[j] == data[j - addr]
      {
        assert back[j - addr] == stuck[j];
      }
    }
    if StuckAgrees(stuck, addr, data) {
      forall i | 0 <= i < |data|
        ensures back[i] == data[i]
      {
        if addr + i in stuck {
          assert stuck[addr + i] == data[addr + i - addr];
        }
      }
    }
  }

  /** The external QSPI NOR flash behind the memory slot used by the example. */
  class Device {
    /** Bytes on the device (cy_serial_flash_qspi_get_size). */
    const size: uint32
    /** Erase granularity; the model assumes a uniform sector layout. */
    const sectorSize: uint32
    /** Address at which the device appears once XIP mode is on. */
    const baseAddress: uint32
    /** Defective cells and the value each one always reads back. */
    const stuck: map<nat, uint8>
    /** Device contents, from device address 0 upward. */
    var mem: seq<uint8>
    /** Whether the SMIF block is in XIP (memory-mapped) mode. */
    var xipEnabled: bool

    /** The sector layout the example relies on: non-empty sectors, at least two of them. */
    ghost predicate Shaped()
    {
      0 < sectorSize && 2 * sectorSize <= size
    }

    ghost predicate Valid()
      reads this
    {
      |mem| == size && Shaped()
    }

    /** The device as it comes out of reset: command mode, contents unknown. */
    constructor (size: uint32, sectorSize: uint32, baseAddress: uint32, stuck: map<nat, uint8>, mem: seq<uint8>)
      requires |mem| == size && 0 < sectorSize && 2 * sectorSize <= size
      ensures Valid() && !xipEnabled
      ensures this.size == size && this.sectorSize == sectorSize && this.baseAddress == baseAddress
      ensures this.stuck == stuck && this.mem == mem
    {
      this.size := size;
      this.sectorSize := sectorSize;
      this.baseAddress := baseAddress;
      this.stuck := stuck;
      this.mem := mem;
      xipEnabled := false;
    }

    /**
     * cy_serial_flash_qspi_get_erase_size: the size of the sector holding addr.
     * The layout is uniform, so every address reports the same size, and the
     * device holds at least two sectors of that size.
     */
    function EraseSize(addr: uint32): (n: uint32)
      requires Shaped()
      ensures n == sectorSize && 0 < n && 2 * n <= size
    {
      sectorSize
    }

    /** cy_serial_flash_qspi_erase; `reported` is the status the hardware gives. */
    method Erase(addr: uint32, len: uint32, reported: uint32) returns (status: uint32)
      requires Valid() && addr + len <= size
      modifies this`mem
      ensures Valid() && status == reported
      ensures mem == if reported == 0 then AfterErase(old(mem), addr, len) else old(mem)
    {
      status := reported;
      if reported == 0 {
        mem := AfterErase(mem, addr, len);
      }
    }

    /** cy_serial_flash_qspi_write of buf[..len]. */
    method Write(addr: uint32, len: uint32, buf: array<uint8>, reported: uint32) returns (status: uint32)
      requires Valid() && addr + len <= size && len <= buf.Length
      modifies this`mem
      ensures Valid() && status == reported
      ensures mem == if reported == 0 then AfterWrite(old(mem), addr, buf[..len]) else old(mem)
    {
      status := reported;
      if reported == 0 {
        mem := AfterWrite(mem, addr, buf[..len]);
      }
    }

    /** cy_serial_flash_qspi_read into buf[..len]; a failed read leaves buf alone. */
    method Read(addr: uint32, len: uint32, buf: array<uint8>, reported: uint32) returns (status: uint32)
      requires Valid() && addr + len <= size && len <= buf.Length
      modifies buf
      ensures status == reported
      ensures reported == 0 ==> buf[..len] == Observed(mem, stuck, addr, len)
      ensures reported == 0 ==> buf[len..] == old(buf[len..])
      ensures reported != 0 ==> buf[..] == old(buf[..])
    {
      status := reported;
      if reported == 0 {
        forall i | 0 <= i < len {
          buf[i] := Cell(mem, stuck, addr + i);
        }
      }
    }

    /** cy_serial_flash_qspi_enable_xip: switches the SMIF block's mode; the caller discards its result, so the switch always succeeds here. */
    method EnableXip(enable: bool)
      modifies this`xipEnabled
      ensures xipEnabled == enable
    {
      xipEnabled := enable;
    }
  }
}

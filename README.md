# PSoC 6 QSPI execute-in-place example: the start-up sequencer

This project models `main.c` of the PSoC 6 "External Flash Access in XIP
Mode" example. The model covers `main`, `check_status`, `check_address` and
the output layout of `print_array`. The board starts up and runs these steps
in order:

1. Initialise the serial-flash driver.
2. Fill a 64-byte transmit buffer with the pattern `i & 0xFF` and clear the
   receive buffer.
3. Target the start of the second erase sector.
4. Erase that sector, read it, write the pattern, and read it back.
5. Compare the two buffers with `memcmp`.
6. Switch the SMIF block to execute-in-place (XIP) mode.
7. Check that the string `hi_word` and the function
   `print_from_external_memory` lie at or above the base address of the
   mapped memory.
8. Blink the user LED.

Every check is fail-stop: it prints a diagnostic, turns the LED on, and
spins forever.

The model has three modules:

- `QspiFlash` (`flash.dfy`) stands for the `cy_serial_flash_qspi_*` driver.
  - The driver's code is not part of this model.
  - A `Device` holds the flash contents as a byte sequence and a flag for XIP mode.
  - The init, erase, read and write calls each report a 32-bit status, and
    that status is an input to the model. `main` discards the result of the
    call that enables XIP, so in the model that switch always succeeds.
  - A call whose status is zero has its documented effect: erase sets bytes
    to 0xFF, write stores bytes, and read returns what the cells hold.
  - Defective cells are a map from address to the value such a cell always
    reads back. This makes the read-back mismatch at `main.c:258` reachable.
- `XipExample` (`xip_example.dfy`) holds the program itself.
  - `main` is the class `Sequencer`, with one method per step.
  - Its fields are the two buffers (arrays), the target address, the phase,
    the LED and the diagnostic of the check that halted.
  - A ghost `trace` records the steps issued.
  - `Failed` is an absorbing phase. A failing check returns from the method
    instead of spinning, and no later step runs.
- `XipScenarios` (`scenarios.dfy`) holds clients of `Sequencer.Run`.
  - It shows a healthy device, a stuck byte, a failed erase and a string
    below the base.
  - Each outcome follows from `Run`'s contract alone.

The fail-stop rule is stated once, in two forms:

- `Issued(g)` is the generic rule over a sequence of guards: run while the
  guards pass, and the first failing step is the last one issued.
- `StepsRun` is the step count read off `main`'s code.

`StepsRunIsFailStop` proves that the two agree. `Run` states its trace as the
first `StepsRun(...)` steps of `Protocol`.

## Model

| member | source | states |
|---|---|---|
| XipExample.Sequencer.constructor | main.c:188-204 | At reset the LED is off, the SMIF block is in command mode, no step has run, and there is no fault. |
| XipExample.Sequencer.CheckStatus | main.c:99-112 | A zero status returns with nothing changed. A non-zero status turns the LED on, records the step and status, and enters the absorbing Failed phase. |
| XipExample.Sequencer.CheckAddress | main.c:155-168 | An address at or above the memory's base address returns with nothing changed. An address below the base turns the LED on, records the step and address, and enters Failed. |
| XipExample.Sequencer.InitBuffers | main.c:216-225 | Afterwards `txBuffer[i] == i & 0xFF` and `rxBuffer[i] == 0` for every i < 64, so `txBuffer` is the write pattern. |
| XipExample.Sequencer.Prepare | main.c:210-230 | The init status is checked first. On success the buffers are initialised and the target address and erase length both equal the erase size the driver reports for address 0, which is the start of the second sector. |
| XipExample.Sequencer.EraseTarget | main.c:234-237 | One sector at the target is erased. On a non-zero status the flash is unchanged and the sequence halts with that status. |
| XipExample.Sequencer.ReadErasedSector | main.c:239-243 | On success `rxBuffer` holds what the 64 cells at the target read. Otherwise the sequence halts with the read's status. |
| XipExample.Sequencer.WriteBuffer | main.c:245-249 | On success the flash holds `txBuffer` at the target. Otherwise the flash is unchanged and the sequence halts. |
| XipExample.Sequencer.ReadBackBuffer | main.c:251-255 | After erasing and programming the target, the read-back equals `txBuffer` exactly when no defective cell there disagrees with the pattern. |
| XipExample.Sequencer.Verify | main.c:257-263 | Equal buffers let the sequence go on. Any differing byte halts it, with memcmp's result converted to uint32 as the error code. |
| XipExample.MemCmp | main.c:258-259 | memcmp over equal-length byte buffers is zero exactly when the buffers are equal, and its value lies in [-255, 255]. |
| XipExample.AsUint32 | main.c:258-259 | Passing memcmp's int to check_status's uint32_t parameter keeps zero and non-zero apart, and leaves a non-negative value unchanged. |
| XipExample.Sequencer.EnterXipMode | main.c:265-267 | XIP mode is on after the compare, and only then. |
| XipExample.Sequencer.CheckReferences | main.c:269-280 | The string is checked first. If that check fails, neither the function check nor the call happens. If the string passes, the function is checked, and the function is called only when both pass. |
| XipExample.Sequencer.Conclude | main.c:282-284 | Once every step of the protocol has been issued, the sequence reaches Steady. |
| XipExample.Sequencer.Blink | main.c:286-290 | In Steady, each pass of the loop toggles the LED. |
| XipExample.Sequencer.EraseAndProbe | main.c:210-243 | Reaches Erased exactly when init, erase and read all report zero, and otherwise stops at the first non-zero status. After the erase, every healthy cell read back is 0xFF. |
| XipExample.Sequencer.ProgramAndCompare | main.c:245-263 | Reaches Verified exactly when the write and read-back report zero and no defective cell disagrees with the pattern. Otherwise it stops at the first failing step, with that step's code. When both calls report zero, `rxBuffer` holds what the target's cells read, and the sequence goes on exactly when the two buffers are equal. A halt at the compare means the buffers differ and reports a non-zero code. |
| XipExample.Sequencer.WriteAndVerify | main.c:210-263 | The erase/read/write/read/compare phase is fail-stop and leaves XIP off. It ends Verified exactly when all five statuses are zero and no defective cell disagrees with the pattern. When all five statuses are zero, `txBuffer` is the pattern and the sequence goes on exactly when `rxBuffer` equals it. A halt at the compare means the buffers differ and reports a non-zero code. On success the flash holds the pattern in the erased second sector. |
| XipExample.Sequencer.XipAndReferences | main.c:265-290 | XIP mode is entered, then the string and function addresses are checked. The buffers and the flash contents are unchanged. Steady is reached exactly when both lie in external memory. A halt names the failing check and reports its address. |
| XipExample.Sequencer.Run | main.c:188-291 | The steps run in protocol order and stop at the first failing check. XIP is enabled exactly when every flash call succeeded and the read-back equals the pattern. Steady is reached exactly when every check passes. A halt reports the failing step's own status, memcmp code or address. When all five statuses are zero, `txBuffer` holds the pattern and XIP is enabled exactly when `rxBuffer` equals it. A halt at the compare means the buffers differ and reports a non-zero code. |
| XipExample.Issued | main.c:214-280 | Under fail-stop, at most one step per guard is issued, and at least one when there is any step. |
| XipExample.IssuedIff | main.c:214-280 | Step i is issued exactly when every earlier check passed. |
| XipExample.IssuedStops | main.c:214-280 | The first failing check, at position k, is the last step issued. |
| XipExample.IssuedAll | main.c:214-280 | When every check passes, every step is issued. |
| XipExample.StepsRunIsFailStop | main.c:214-280 | `main`'s step count equals the fail-stop rule applied to its twelve guards. |
| XipExample.EraseFailureIsFailStop | main.c:210-243 | A failing init, erase or read stops the sequence right after that step. |
| XipExample.ProgramFailureIsFailStop | main.c:245-263 | A failing write, read-back or compare stops the sequence right after that step. |
| XipExample.ReferenceCheckIsFailStop | main.c:269-290 | Once the flash steps pass, the first failing address check is the last step. Otherwise all twelve steps run. |
| XipExample.PrintArray | main.c:126-140 | The output loop produces exactly the layout of the buffer's first `size` bytes. |
| XipExample.LayoutBreaks | main.c:131-139 | `size` bytes produce exactly `size / 16` line breaks. |
| XipExample.LayoutPosition | main.c:131-139 | The output has `size + size / 16` items. Byte i is item `i + i / 16`, and a line break follows each byte whose 1-based index is a multiple of 16. |
| QspiFlash.AfterErase | main.c:234-237 | After erasing [addr, addr + len), those bytes are 0xFF and every other byte is unchanged. |
| QspiFlash.AfterWrite | main.c:245-248 | After writing data at addr, bytes [addr, addr + \|data\|) hold data and every other byte is unchanged. |
| QspiFlash.Observed | main.c:239-242 | A read of len bytes returns, at each offset, the byte stored there, or the stuck value for a defective cell. |
| QspiFlash.ReadBackRoundTrip | main.c:234-259 | Erase, write and read back return the data written exactly when no defective cell in the range disagrees with it. |
| QspiFlash.Device.Erase | main.c:236 | Reports the hardware status, and erases the range only when that status is zero. |
| QspiFlash.Device.Write | main.c:247 | Reports the hardware status, and stores the buffer only when that status is zero. |
| QspiFlash.Device.Read | main.c:241 | Reports the hardware status. On zero it fills the first len bytes of the buffer with what the cells read. On failure the buffer is unchanged. |
| QspiFlash.Device.EraseSize | main.c:229 | The erase size reported for any address is the device's one sector size; it is non-zero and the device holds at least two sectors of it, so the second sector exists. |
| QspiFlash.Device.EnableXip | main.c:267 | Switches the SMIF block to the requested mode. |

## Left out

- Board start-up has no model: `cybsp_init`, its `CY_ASSERT`, `__enable_irq`,
  `cy_retarget_io_init` and `cyhal_gpio_init` (main.c:194-204). It is hardware
  plumbing in libraries that are not part of this model. The flash driver's
  initialisation appears only as the status that `check_status` examines.
- Device.EraseSize: the device has one uniform sector size, reported for
  every address; layouts with sectors of several sizes are not modelled.
- The flash driver's internals are left out: bus transactions and timing.
  Each call's status is an input, and defective cells are the only way a
  read-back can differ.
- The device's write is a plain store. NOR flash can only clear bits; the
  model does not need that, because the target is always erased first.
- A failed erase or write is modelled as leaving the flash unchanged, and a
  failed read as leaving the buffer unchanged. The code halts right after
  any of them, so nothing observes that state.
- `printf` text, the ANSI escape sequence, the size print at main.c:232 and
  the header lines of `print_array` are console output and are not modelled.
  `print_array`'s byte and line-break layout is modelled. The three
  `print_array` calls inside `main` (main.c:243, 249, 255) are not part of
  the sequencer's state.
- The `while(true)` spins are modelled as the absorbing Failed phase. The
  blink loop is modelled as the Steady phase plus one `Blink` per pass; the
  one-second delay is not modelled.
- Linker placement in `.cy_xip` and `.cy_xip_code` is not modelled. The
  addresses of `hi_word` and `print_from_external_memory` are inputs. What
  the string contains and what the function prints are not modelled.
- The hardware effect of XIP mode is reduced to the `xipEnabled` flag.
- MemCmp: returns the difference of the first differing unsigned bytes. C
  promises only that memcmp's result is zero or not (and its sign). The error
  code that Sequencer.Verify and Run report for a compare halt,
  `AsUint32(MemCmp(txBuffer, rxBuffer))`, therefore depends on this choice of
  memcmp's value; only the fact that it is non-zero is implied by the code.
- The model assumes the device holds at least two sectors and that a sector
  holds at least `PACKET_SIZE` bytes. The code takes this for granted when it
  writes 64 bytes at the start of the second sector.
- Sequencer.CheckAddress and Run test the address against the lower bound
  only (`baseAddress > addr`, main.c:157), as the code does, so an address
  beyond the end of the external memory passes.
- Sequencer.EraseTarget erases one full sector (`sectorSize` bytes,
  main.c:236); Sequencer.Prepare only chooses that length (main.c:229-230).
- EnableXip: main.c:267 discards the call's result; the model's mode switch
  always succeeds.

# LIS2DTW12 double-tap example: report formatter and bus addressing

This project models, in Dafny, the logic in STMicroelectronics' LIS2DTW12
double-tap example (`lis2dtw12_STdC/example/tap_double.c`) that does not
depend on hardware. That logic has two parts.

- **The tap report.** Each pass of the poll loop reads one snapshot of the
  sensor's tap-source flags: `double_tap`, `single_tap`, `tap_sign`, `x_tap`,
  `y_tap` and `z_tap`. From it the pass emits zero, one or two ASCII lines
  of the form `Double Tap Detected: Sign positive on X on Z axis\r\n`. A
  single tap gives the same line with the prefix `Tap Detected: Sign `.
  Each line is built in the static 1000-byte `tx_buffer` by a chain of
  `sprintf` calls. Then `strlen(tx_buffer)` bytes of it are sent.
- **The register-address byte.** This is the byte that `platform_read` and
  `platform_write` put on the bus. Over I2C the register address goes out
  unchanged. Over SPI a read sets bit 7 (`reg |= 0x80`) and a write sends the
  address as it is.

Files:

- `tap_report.dfy` (module `TapReport`) describes the report on values.
  `Render` gives the text of a line from the fields it carries. `Parse` reads
  a line back. `Events` and `Report` give the lines of one poll pass, in order.
  The lemmas prove that `Parse` and `Render` are inverse and that a line's
  prefix, sign word, axes and terminator are right. They also prove the
  length bound and that no line contains a NUL.
- `poll_loop.dfy` (module `PollLoop`) follows the C code step by step. The
  class `TxBuffer` holds the 1000-character array and the NUL-terminated
  string in it. `Print` models `sprintf` into the buffer and `Append` models
  `sprintf(buf, "%s…", buf)`. `Length` is `strlen`, a scan for the NUL.
  `FormatTapLine` runs the `sprintf` chain of one branch. `EmitTapLine` adds
  the transmission, and `PollIteration` runs both branches (lines 213-242).
  They are proved to produce exactly `Render` / `Report` of the snapshot.
- `bus_address.dfy` (module `BusAddress`) holds the address byte for each
  bus and direction. It also holds the sensor's reading of an SPI address
  byte (bit 7 is the direction, bits 0-6 the register), so the two can be
  checked against each other.

Assumptions:

- The C code calls `sprintf(tx_buffer, "%s on X", tx_buffer)`, where the
  destination is also a `%s` source. That is undefined behaviour in C.
  `TxBuffer.Append` models what the code evidently means: it appends the
  suffix to the string already in the buffer.
- `tx_buffer` is a `uint8_t` array. The model stores `char`s, and
  `RenderIsAscii` proves that every character of a line is a 7-bit non-NUL
  code, so each one fits a byte.

## Model

| member | source | states |
|---|---|---|
| TapReport.Events | lis2dtw12_STdC/example/tap_double.c:213-242 | one pass emits no line when neither tap flag is set and one line per set flag; the double-tap line comes first and the single-tap line last; every line carries the snapshot's sign and axis flags |
| TapReport.Render | lis2dtw12_STdC/example/tap_double.c:215-223 | a line is the kind's prefix, the sign word, the axis part and the terminator, so its length is the sum of theirs: the prefix, the sign word, 5 per set axis and the terminator |
| TapReport.ReportShape | lis2dtw12_STdC/example/tap_double.c:213-242 | a pass sends nothing when neither tap flag is set and one line per set flag; the first line starts with "Double Tap Detected: Sign " when double_tap is set, the last with "Tap Detected: Sign " when single_tap is set; every line is at most 56 characters of non-NUL 7-bit ASCII |
| TapReport.ReportReadsBack | lis2dtw12_STdC/example/tap_double.c:213-242 | each line sent in a pass reads back to the event it reports, in order: kind, sign and axis flags |
| TapReport.ReportInjective | lis2dtw12_STdC/example/tap_double.c:213-242 | two snapshots give the same report exactly when they agree on both tap kinds and, if any line is sent, on the sign and all three axis flags |
| TapReport.ParseRender | lis2dtw12_STdC/example/tap_double.c:215-223 | every formatted line reads back to the kind, sign and axis flags it was built from |
| TapReport.RenderParse | lis2dtw12_STdC/example/tap_double.c:215-223 | any text that reads as a report line is exactly the line formatted from the fields read, so Parse and Render are inverse |
| TapReport.RenderInjective | lis2dtw12_STdC/example/tap_double.c:215-223 | two lines are equal exactly when their kind, sign and axis flags are equal |
| TapReport.ParseAxesRender | lis2dtw12_STdC/example/tap_double.c:217-222 | the axis part reads back to exactly the set axis flags: " on X", " on Y", " on Z" for the set flags only, in X, Y, Z order, and nothing when no flag is set |
| TapReport.LineShape | lis2dtw12_STdC/example/tap_double.c:215-223 | a branch's line starts with "Double Tap Detected: Sign " or "Tap Detected: Sign ", continues with "positive" exactly when tap_sign is set and "negative" exactly when it is clear, and ends with " axis\r\n" |
| TapReport.RenderLength | lis2dtw12_STdC/example/tap_double.c:215-223 | a line is the prefix, 8 sign characters, 5 per set axis and 7 for the terminator; it is at most 56 characters, and exactly 56 only for a double tap on all three axes; with its NUL it fits the 1000-byte buffer |
| TapReport.RenderIsAscii | lis2dtw12_STdC/example/tap_double.c:224 | every character of a line is a 7-bit code other than NUL, so strlen of the buffer is the line's length |
| PollLoop.TxBuffer.constructor | lis2dtw12_STdC/example/tap_double.c:100 | the zero-initialised 1000-byte static buffer holds the empty string |
| PollLoop.TxBuffer.Print | lis2dtw12_STdC/example/tap_double.c:215-216 | after sprintf of a NUL-free text that fits, the buffer holds exactly that text followed by a NUL |
| PollLoop.TxBuffer.Append | lis2dtw12_STdC/example/tap_double.c:217-223 | after sprintf(buf, "%s<suffix>", buf), the buffer holds the old string followed by the suffix (the intended meaning of the overlapping call) |
| PollLoop.TxBuffer.Length | lis2dtw12_STdC/example/tap_double.c:224 | strlen returns the length of the held string: the position of the first NUL, with no NUL before it |
| PollLoop.AppendAxis | lis2dtw12_STdC/example/tap_double.c:217-218 | a conditional axis sprintf appends " on <axis>" exactly when the axis flag is set and leaves the buffer unchanged otherwise |
| PollLoop.AppendAxes | lis2dtw12_STdC/example/tap_double.c:217-222 | the three conditional sprintf calls append exactly the axis part: " on X", " on Y", " on Z" for the set flags, in X, Y, Z order |
| PollLoop.FormatTapLine | lis2dtw12_STdC/example/tap_double.c:215-223 | the sprintf chain of one branch leaves exactly the snapshot's line, terminator included, in the buffer |
| PollLoop.EmitTapLine | lis2dtw12_STdC/example/tap_double.c:215-224 | one branch leaves the rendered line of the snapshot in the buffer and transmits exactly that line, with no terminating NUL and at most 56 characters |
| PollLoop.PollIteration | lis2dtw12_STdC/example/tap_double.c:205-243 | one pass of the poll loop hands exactly Report(snapshot) to tx_com: the double-tap line if that flag is set, then the single-tap line if that flag is set; afterwards tx_buffer holds the single-tap line if one was sent, else the double-tap line if one was sent, else what it held before |
| BusAddress.AddressByte | lis2dtw12_STdC/example/tap_double.c:298 | the address byte keeps the register's low seven bits; bit 7 is set on an SPI read and is otherwise the register's own bit 7 |
| BusAddress.PassThroughUnlessSpiRead | lis2dtw12_STdC/example/tap_double.c:259-293 | over I2C in both directions, and for an SPI write, the register address is sent unchanged |
| BusAddress.SpiReadOffset | lis2dtw12_STdC/example/tap_double.c:297-298 | for a seven-bit register an SPI read sends the register number plus 0x80 |
| BusAddress.SpiAddressRoundTrip | lis2dtw12_STdC/example/tap_double.c:297-300 | decoding an SPI address byte as direction bit plus register recovers the direction and any seven-bit register |
| BusAddress.SpiAddressAmbiguousAboveSevenBits | lis2dtw12_STdC/example/tap_double.c:298 | for a register number with bit 7 set, the SPI read and write address bytes coincide, so the direction is lost |

## Left out

- HAL calls are foreign hardware I/O and are left out. The bus transfers
  (`HAL_I2C_Mem_Write`/`HAL_I2C_Mem_Read`, `HAL_SPI_Transmit`/`HAL_SPI_Receive`)
  and `HAL_UART_Transmit` take a 1000 ms timeout, and their return codes are
  ignored. `HAL_GPIO_WritePin` drives the SPI chip select. Only the register
  address byte of a transfer is modelled.
- What reaches the host is left out. `PollIteration` returns the text handed
  to `tx_com`, not what arrives. On the STEVAL board `tx_com` calls
  `CDC_Transmit_FS(tx_buffer, len)` (line 321), which takes no timeout and
  whose return code is ignored, so a busy USB link can drop a line. On the
  Nucleo board `HAL_UART_Transmit` can time out the same way.
- `HAL_Delay(1000)` in `platform_init` (line 334) is a one-second wait, not a
  timeout. It is left out with `platform_init`.
- The `lis2dtw12_*` driver calls (device-ID check, reset polling, full scale,
  power mode, data rate, tap axes, thresholds, tap timing, tap mode and
  interrupt routing, lines 139-200) are left out. That library is not part of
  this model, so the way it reads the tap-source register is not modelled
  either. The snapshot is taken as an input.
- The two infinite loops are left out: the poll loop and the stall on a wrong
  device ID. Neither terminates. The model covers one pass of the poll loop
  as `PollIteration`.
- Board selection by preprocessor (`STEVAL_MKI109V3` /
  `NUCLEO_F411RE_X_NUCLEO_IKS01A2`) and the dispatch on which bus `handle` is passed are
  configuration, so the bus is a parameter of `AddressByte`.
- The SPI branches of `platform_write` and `platform_read` (lines 264-271 and
  294-303) cannot run as the file is written. `SENSOR_BUS` is defined (lines 71
  and 78) but never used, and line 129 always sets `dev_ctx.handle = &hi2c1`.
  That holds even with `STEVAL_MKI109V3`, whose header comment (line 49) calls
  SPI the default. `AddressByte` with `Spi` is the rule `platform_read` would
  apply if the handle were `&hspi2`.
- `platform_init` is left out. It only writes PWM timer registers to set the
  supply voltage.
- The device-side I2C address `LIS2DTW12_I2C_ADD_L` is left out. It is
  defined in the driver header, which is not part of this model.
- The contents of `tx_buffer` after the NUL are left out. The model does not
  say what stays there from earlier, longer lines, because nothing reads it.

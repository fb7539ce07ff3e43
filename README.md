# A verified model of the polled AVR serial driver `UART.c`

`UART.c` is a polled serial driver for the AVR USART instances 0, 2 and 3.
It provides:

- port configuration (`UART_Ini`);
- byte and string output (`_uart_tx`, `UART_putchar`, `UART_puts`, the latter turning every LF into CR LF);
- polled receive (`UART_available`, `UART_getchar`);
- a small line editor for decimal numbers (`UART_gets`);
- three ECMA-48 terminal helpers (`UART_clrscr`, `UART_setColor`, `UART_gotoxy`);
- its own `itoa` and `atoi`.

The model keeps the hardware abstract. For each supported port it records:

- the configuration registers, as values;
- every byte written to the data register so far;
- the bytes that will arrive, oldest first.

The static `_uart_parity` table is an array of four bytes.

Modules:

- `Numeric` (`numeric.dfy`) holds `itoa` and `atoi`.
  - Two loops write `itoa` for an in-place `array<char>`: a do-while into a 17-character scratch array, then a reversing copy.
  - `atoi` is an accumulator loop with 16-bit wrap-around.
  - Both are proved against the pure functions `ItoaString` and `AtoiValue`.
  - Lemmas then prove the digit, leading-zero, length and round-trip properties of those functions.
- `CStrings` (`cstrings.dfy`) covers C strings and the LF to CR LF translation.
  - A C string is a `seq<char>` that ends at its first NUL, or at the end of the sequence.
  - Its contracts state the translation's inverse, length, ordering and concatenation laws.
- `Config` (`config.dfy`) holds the register values `UART_Ini` computes:
  - the baud-rate divisor, in 32-bit arithmetic truncated to 16 bits, then split into a high and a low byte;
  - the enable byte;
  - the frame-control byte, with a property for each of its bits.
- `Editor` (`editor.dfy`) is the line editor of `UART_gets` as pure functions of the bytes before the terminator: the index, the caller's buffer and the echo.
  - It also gives a reference definition, `Text`, of what the user has typed.
  - It proves that the buffer holds that text and that writes stay below index 20.
  - It proves that a simple terminal model shows exactly that text after the echo.
- `Ansi` (`ansi.dfy`) holds the ECMA-48 control sequences:
  - ED, ECMA-48 section 8.3.39;
  - CUP, ECMA-48 section 8.3.21;
  - SGR, ECMA-48 section 8.3.117, with CSI as in ECMA-48 section 5.4.
- `Serial` (`serial.dfy`) holds the class `Uart`, the driver itself. Each of its methods is proved against the pure modules.

## Model

| member | source | states |
|---|---|---|
| Numeric.DigitChar | UART.c:123 | the character of digit r: '0'+r below ten, 'A'+r-10 from ten on, truncated to 8 bits |
| Numeric.Digits | UART.c:121-125 | the digits of v in base b, most significant first, at least one (see ItoaDigits, DigitsValue, DigitsLeading) |
| Numeric.Spell | UART.c:123 | one DigitChar per digit, the same length as the digits |
| Numeric.ItoaString | UART.c:118-127 | what itoa leaves before the NUL: the spelled digits of v in the base Radix gives |
| Numeric.Radix | UART.c:120 | the base used is 10 when the argument is below 2 and the argument otherwise, always 2..255 |
| Numeric.Itoa | UART.c:118-127 | the buffer holds ItoaString(v, base) followed by a NUL; nothing after the NUL changes |
| Numeric.DigitsLowFirst | UART.c:119-125 | the do-while loop writes the digits least significant first into a fresh 17-character scratch array; the count equals the number of digits and stays below 17 |
| Numeric.CopyReversed | UART.c:126 | str[k] == tmp[n-1-k] for k < n, then a NUL at str[n]; later cells unchanged |
| Numeric.ItoaDigits | UART.c:121-125 | the output is non-empty, most significant digit first; each character is DigitChar of a digit below the base; the digits evaluate back to v |
| Numeric.DigitsValue | UART.c:121-125 | the digit sequence evaluates back to the value in its base |
| Numeric.DigitsLeading | UART.c:121-125 | the digits are [0] exactly for zero; otherwise the leading digit is not zero |
| Numeric.ItoaZero | UART.c:118-127 | up to base 249, the output is "0" exactly when v == 0, and no other output starts with '0' |
| Numeric.ItoaAlphabet | UART.c:123 | up to base 36, each character is '0'..'9' or 'A'..'Z' and stands for a digit below the base |
| Numeric.ItoaWideBase | UART.c:123 | in base 250 the digit 249 is stored as '0' because 'A'+239 wraps in an 8-bit char |
| Numeric.ItoaFitsScratch | UART.c:119-125 | in any base a 16-bit value has at most 16 digits, so the i < sizeof(tmp) cap never stops the loop early |
| Numeric.DigitsBound | UART.c:121-125 | a value below b^k has at most k digits |
| Numeric.ItoaByteDecimal | UART.c:105-106 | a byte has at most three decimal digits, so the 8-character buffers of the terminal helpers suffice |
| Numeric.ItoaExampleZero | UART.c:121-125 | itoa(0, 10) is "0": the do-while runs once |
| Numeric.ItoaExampleHex | UART.c:123 | itoa(255, 16) is "FF" |
| Numeric.ItoaExampleBinary | UART.c:121-126 | itoa(8, 2) is "1000" |
| Numeric.ItoaExampleDefaultBase | UART.c:120 | base 0 behaves as base 10: ten comes out as "10", which only base 10 gives |
| Numeric.DigitValue | UART.c:131 | the value of a digit character c - '0' is below 10 and spells back as c |
| Numeric.LeadingDigits | UART.c:130-131 | the longest prefix of decimal digits: a prefix of s, all digits, followed by a non-digit or the end |
| Numeric.IsDigit | UART.c:131 | the test '0' <= c <= '9' |
| Numeric.Decimal | UART.c:131 | the unbounded value of a digit string, each step v*10 + digit |
| Numeric.AtoiValue | UART.c:128-134 | what atoi returns: the value of the leading digits modulo 2^16 (see Atoi, AtoiItoa) |
| Numeric.Atoi | UART.c:128-134 | the result equals AtoiValue(s): the leading decimal digits reduced modulo 2^16, stopping at NUL, '.' or any other non-digit |
| Numeric.AtoiExampleFraction | UART.c:130 | atoi("123.45") is 123 |
| Numeric.AtoiExampleNoDigits | UART.c:129-133 | atoi("abc") and atoi("") are 0 |
| Numeric.AtoiExampleWrap | UART.c:131 | atoi("65537") is 1: the uint16 accumulator wraps |
| Numeric.ItoaDecimal | UART.c:118-127 | in base 10 every character is a decimal digit and the decimal value is v |
| Numeric.AtoiItoa | UART.c:118-134 | round trip: atoi reads back v from itoa(v, 10), alone or followed by any non-digit |
| CStrings.CString | UART.c:63 | the characters a `while (*s)` loop visits: a prefix with no NUL, followed by a NUL or the end of the sequence |
| CStrings.CStringOf | UART.c:63 | a NUL-free prefix followed by a NUL is exactly the C string |
| CStrings.CStringWhole | UART.c:63 | a sequence with no NUL is its own C string |
| CStrings.Crlf | UART.c:63-68 | what puts transmits for a string: each LF preceded by a CR, never shorter than the input (see StripCrlf, CrlfLength) |
| CStrings.StripCrlf | UART.c:64-67 | removing the CR before each LF gives the input back, so puts adds only CRs and drops or reorders nothing |
| CStrings.CrlfLength | UART.c:64-67 | the output is one character longer than the input for each LF |
| CStrings.CrlfCrBeforeLf | UART.c:64-65 | every LF that goes out is preceded by a CR |
| CStrings.CrlfNoLf | UART.c:64-67 | a string without an LF is sent unchanged |
| CStrings.CrlfConcat | UART.c:63-68 | the translation distributes over concatenation |
| CStrings.CrlfOfCrLf | UART.c:96 | puts("\r\n") sends CR CR LF |
| Config.Prescaled | UART.c:15 | sixteen times the baud rate, wrapped to 32 bits |
| Config.Divisor | UART.c:15 | F_CPU over the prescaled rate, less one, truncated to 16 bits (see DivisorFloor, DivisorWraps) |
| Config.High | UART.c:20 | the high byte of the divisor, for UBRRnH |
| Config.Low | UART.c:20 | the low byte of the divisor, for UBRRnL (see SplitDivisor) |
| Config.EnableByte | UART.c:21 | RXENn or-ed with TXENn (see EnableByteBits) |
| Config.SizeBits | UART.c:22 | UCSZn1 for size 8 and UCSZn0 for size 8 or more |
| Config.WithParity | UART.c:23-24 | UPMn1 and UPMn0 or-ed in for parity 1, UPMn1 alone for parity 2 |
| Config.WithStop | UART.c:25 | USBSn or-ed in for two stop bits |
| Config.ControlByte | UART.c:22-25 | the three steps in order (see ControlByteBits) |
| Config.Configured | UART.c:20-25 | the four registers a supported port receives |
| Config.DivisorAt9600 | UART.c:15 | 9600 baud gives divisor 103 |
| Config.DivisorFloor | UART.c:15 | from 16 to 1,000,000 baud the divisor is the largest n with (n+1)*16*baud <= F_CPU; no wrap occurs |
| Config.DivisorWraps | UART.c:15 | above 1,000,000 baud, without 32-bit overflow, the quotient is 0 and the divisor wraps to 65535 |
| Config.SplitDivisor | UART.c:20 | UBRRnH * 256 + UBRRnL is the divisor |
| Config.EnableByteBits | UART.c:21 | UCSRnB has exactly the RXENn and TXENn bits set |
| Config.ControlByteBits | UART.c:22-25 | UCSZn1 iff size == 8; UCSZn0 iff size >= 8; UPMn1 iff parity is 1 or 2; UPMn0 iff parity is 1; USBSn iff stop == 2; no other bit |
| Editor.IsEnd | UART.c:96 | CR or LF ends the line |
| Editor.IsErase | UART.c:97 | byte 8 or 127 erases |
| Editor.Accepted | UART.c:98 | a decimal digit or '.' is stored |
| Editor.NextIndex | UART.c:97-98 | idx after a non-terminating byte: one less on an erase with idx > 0, one more on an accepted byte with idx < 19, otherwise unchanged |
| Editor.Store | UART.c:97-98 | the buffer after a non-terminating byte: NUL at idx-1 on an erase, the byte at idx when accepted, otherwise unchanged |
| Editor.StepEcho | UART.c:97-98 | the echo of one byte: "\b \b" on an erase, the byte when accepted, nothing otherwise |
| Editor.EchoOf | UART.c:94-98 | the echoes of the bytes in order (see EchoShowsText) |
| Editor.GetsBuffer | UART.c:96 | the buffer after the line with the NUL at the final idx (see GetsResult) |
| Editor.GetsEcho | UART.c:96 | the echo of the line followed by CR CR LF |
| Editor.LineEnd | UART.c:94-96 | the position of the first CR or LF among the waiting bytes |
| Editor.Index | UART.c:93-98 | idx never exceeds 19 |
| Editor.Buffer | UART.c:96-98 | the buffer keeps its length |
| Editor.Text | UART.c:96-98 | the reference line has at most 19 characters, each a digit or '.' |
| Editor.IndexIsLength | UART.c:93-98 | idx is always the length of the typed text |
| Editor.BufferHoldsText | UART.c:97-98 | str[0..idx) always holds the typed text |
| Editor.BufferUntouched | UART.c:97-98 | no write reaches str[19] or beyond while the line is read |
| Editor.GetsResult | UART.c:93-98 | on return str[0..idx) is the typed text and str[idx] is NUL, so the C string is the text; str[20..] is unchanged; the length is unchanged |
| Editor.TextOfPlainLine | UART.c:98 | a line of digits and points only is kept up to its first 19 characters |
| Editor.EchoShowsText | UART.c:97-98 | after the echo a terminal shows the typed text, cursor after it, followed only by blanks |
| Editor.GetsExampleDecimal | UART.c:98 | "12.5" is stored and echoed as typed |
| Editor.GetsExampleErase | UART.c:97-98 | 9, backspace, 3 leaves "3" and echoes 9, "\b \b", 3 |
| Editor.GetsExampleIgnored | UART.c:97-98 | an erase at idx 0 and a letter are ignored and echo nothing |
| Ansi.Csi | UART.c:107 | ESC [ |
| Ansi.Colors | UART.c:7 | the codes 33, 32, 34 |
| Ansi.ClearScreen | UART.c:102 | ESC [2J ESC [H |
| Ansi.ColorSeq | UART.c:104-108 | CSI, the decimal code of the colour, 'm' (see ColorSeqForms, ColorParam) |
| Ansi.CursorSeq | UART.c:110-115 | CSI, decimal y, ';', decimal x, 'H' (see CursorParams) |
| Ansi.ColorSeqForms | UART.c:104-108 | the three entries of _ansi_colors (line 7) produce ESC [33m, ESC [32m and ESC [34m |
| Ansi.ColorParam | UART.c:104-108 | the SGR sequence is CSI, the colour code that atoi reads back, then 'm' |
| Ansi.CursorParams | UART.c:110-115 | the CUP sequence is CSI, dec(y), ';', dec(x), 'H'; atoi reads back y from the first field and x from the second |
| Ansi.ClearScreenPlain | UART.c:102 | the clear-screen string contains no LF, so puts sends it unchanged |
| Ansi.ColorSeqPlain | UART.c:107 | the SGR sequence contains no LF, so it is sent unchanged |
| Ansi.CursorSeqPlain | UART.c:112-114 | the CUP sequence contains no LF, so it is sent unchanged |
| Ansi.DecimalPlain | UART.c:106 | decimal digits are never NUL or LF |
| Serial.Supported | UART.c:51-55 | ports 0, 2 and 3, the cases of every switch in the file |
| Serial.Emit | UART.c:49-56 | the ports after transmitting on com: com's output grows; an unsupported com changes nothing (see EmitFrame) |
| Serial.Awaiting | UART.c:81-89 | the ports with the given bytes left to arrive on com |
| Serial.EmitFrame | UART.c:51-55 | every other port, and the registers and input of com, stay unchanged; an unsupported com sends nothing |
| Serial.EmitConcat | UART.c:63-68 | sending a and then b is sending a + b |
| Serial.DecimalBuffer | UART.c:106-107 | a buffer written by itoa in base 10 is sent by puts as exactly the decimal digits |
| Serial.Uart.constructor | UART.c:10 | the parity table starts at zero; nothing has been sent |
| Serial.Uart.Ini | UART.c:12-46 | parity[com] := parity for any com < 4, the other entries unchanged; a supported port gets the divisor bytes, the enable byte and the control byte, all other state unchanged; an unsupported port's registers are untouched |
| Serial.Uart.Tx | UART.c:49-56 | the byte is appended to the output of a supported com; an unsupported com sends nothing |
| Serial.Uart.Putchar | UART.c:58 | the same as _uart_tx |
| Serial.Uart.PutsChar | UART.c:64-67 | one loop pass of puts: an LF goes out as CR LF, any other character as itself |
| Serial.Uart.Puts | UART.c:61-69 | the output grows by Crlf(CString(s)): the characters before the first NUL, with a CR before each LF |
| Serial.Uart.Available | UART.c:72-79 | non-zero exactly when com is supported and a byte is waiting; 0 for any other com |
| Serial.Uart.Getchar | UART.c:81-89 | returns the oldest waiting byte and removes it from the queue |
| Serial.Uart.Gets | UART.c:91-100 | consumes the bytes up to and including the first CR/LF; str becomes GetsBuffer of the line; the output grows by EchoOf(line) + "\r\r\n" |
| Serial.Uart.Advance | UART.c:95-98 | one loop pass for a non-terminator: idx, buffer and echo advance from q[..k] to q[..k+1] |
| Serial.Uart.Edit | UART.c:97-98 | an erase with idx > 0 writes NUL at idx-1 and echoes "\b \b"; a digit or '.' with idx < 19 is stored at idx and echoed; anything else changes nothing |
| Serial.Uart.Finish | UART.c:96 | on a terminator, NUL at str[idx], then puts("\r\n") |
| Serial.Uart.Clrscr | UART.c:102 | sends ESC [2J ESC [H |
| Serial.Uart.SetColor | UART.c:104-108 | sends ESC [ dec(_ansi_colors[color]) m |
| Serial.Uart.Gotoxy | UART.c:110-115 | sends ESC [ dec(y) ; dec(x) H |
| Serial.Uart.PutsDecimal | UART.c:112-113 | itoa in base 10 into the buffer, then puts, sends exactly dec(v) |

## Left out

- The memory-mapped registers and the polling:
  - Busy-waiting on UDREn before a transmit is not modelled. A transmit appends to the port's output.
  - The data register is not modelled. A receive takes the oldest byte of the port's input.
  - Readiness and timing are not modelled.
- The initial register contents are a parameter of the constructor; the device's reset values are not part of this model.
- The bit positions RXENn, TXENn, UCSZn0/1, UPMn0/1, USBSn and RXCn are named constants with the values of the device header. The header is not part of this model.
- Serial.Uart.Getchar: the C function spins forever until a byte arrives, and on an unsupported port it never returns. The model requires `Available(com) != 0` instead, so its unreachable `return 0` branch is left out.
- Serial.Uart.Gets: the C function returns only after a CR or LF. The model requires a supported port with a terminator among the waiting bytes, and a buffer of at least 20 characters.
- Serial.Uart.SetColor: `_ansi_colors[color]` with color >= 3 reads past the table, so `color < 3` is required.
- Serial.Uart.Ini:
  - `_uart_parity[com]` with com >= 4 writes past the table, so `com < 4` is required.
  - Division by zero is excluded by requiring `16 * baud` (in 32-bit arithmetic) to be non-zero.
  - A `16 * baud` that overflows is modelled with its 32-bit wrap-around rather than excluded.
- Parity table: it is written but never read in the file, and nothing in the model depends on it.
- Numeric.ItoaZero: "0 exactly for zero" and "no leading zero" are stated up to base 249. They fail from base 250 on, which Numeric.ItoaWideBase shows:
  - from base 37 the digit characters run past 'Z';
  - from base 202 they wrap in an 8-bit char;
  - from base 250 the digit 249 collides with '0'.
- Numeric.ItoaAlphabet: stated only up to base 36, because from base 37 on the digit characters leave '0'..'9' and 'A'..'Z'.
- C strings are character sequences.
  - A string ends at its first NUL or, if it has none, at the end of the sequence.
  - Pointers, aliasing between arguments and writes past a caller's buffer are not modelled. Itoa requires a buffer long enough for the digits and the NUL.
- Characters are unsigned values 0..255; the 8-bit storage is written out where a value can leave that range (the digit characters of itoa). AVR's `char` is signed, but no comparison in UART.c (against 8, 127, '0'..'9', '.', CR, LF and NUL) tells a byte above 127 apart in either reading.

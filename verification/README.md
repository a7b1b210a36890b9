# SMS-controlled street-light monitor: a Dafny model

The firmware runs on an AVR board next to a GSM modem. It switches two light poles and
reports their sensor resistance. At start-up it checks that the modem answers `AT`, and
powers the modem up with a pulse on the key pin if it does not. It then turns echo off,
selects SMS text mode with full headers, deletes every stored message, and pushes ten rounds
of readings for both poles.

After that it polls forever:
- When the receive interrupt has collected a new-message notification, the firmware asks
  the modem for message 1.
- It takes the command character from a fixed place in the reply.
- It deletes the messages, then switches a light or reports a reading.

On every pass it also checks an over-voltage input. On a fault it disables the resistance
sensor and reports the fault.

The project models that firmware (`Analog_Sensor.c`) and the serial helpers of its companion
ohm-meter program (`Analog_Sensor_2.c`). The modules are:

- `CString` (`cstring.dfy`): bytes, fixed-width unsigned integers, NUL-terminated strings and
  `strrchr`.
- `Bits` (`bits.dfy`): the eight-character text of a sample that `bin_ascii` is meant to
  produce, least significant bit first, with its decoder.
- `Usart` (`usart.dfy`): `baud_Calc` with its 32-bit wrap and 16-bit truncation, the UBRR1
  high/low split, the NUL-terminated send loops, and the receive poll with its 16000-poll
  limit.
- `Commands` (`commands.dfy`): the command characters 'A' to 'I', the range test, the nine
  arms of the dispatcher's switch, and `get_ctrl` with the character read through it, both
  as written and guarded.
- `Firmware` (`firmware.dfy`): the class `Controller` over the globals the firmware updates
  in place. It covers:
  - the 100-byte receive buffer, its cursor `ind`, the delay counter, the 8-byte
    `data_ascii` and PORTB;
  - the delays, the modem command sequences and the receive interrupt;
  - the start-up sequence, the start-up report and one pass of the `while(1)` loop.

Everything the firmware makes observable is appended to one trace, in order: a byte written
to the USART, a value written to PORTB, or a call of the `send_data_url` stub, kept as an
abstract push of a payload to an endpoint. The order is what shows, for example, that the
bulk delete precedes every action.

Three defects of the firmware decide what its pushes carry:
- `bin_ascii` leaves "00000000" for every sample.
- `get_ctrl` does not check what `strrchr` returns.
- The start-up report converts both samples into the one `data_ascii` before it pushes
  either. This third defect only shows once `bin_ascii` is fixed (`Firmware.AliasingLatent`).

The operations that depend on them take a `Build`:
- `AsWritten` runs the code as it stands: the all-zero text, the character read through the
  unchecked pointer, and the start-up round in the code's order.
- `Corrected` repairs all three: the intended text, the guarded `get_ctrl`, and a start-up
  round that pushes each pole's text before the next conversion.
The lemmas state the behaviour of each build and how the two relate.

Inputs from the hardware are parameters of the step in which they are read:
- an ADC sample per pole;
- the PINB3 level;
- the bytes the modem sends back during each wait, delivered one interrupt at a time through
  the modelled handler;
- `stray`, the byte of memory the unchecked `get_ctrl` pointer reads when it leaves
  `data_received`.

## Model

| member | source | states |
|---|---|---|
| CString.FirstNul | Analog_Sensor.c:265-271 | the index where the send loop stops: a NUL with no NUL before it |
| CString.CLen | Analog_Sensor.c:445 | length of the string held in the fixed receive buffer: no NUL before it, a NUL at it unless the buffer is full |
| CString.CStrTerminated | Analog_Sensor.c:57-68 | a string constant, terminated by the compiler, reads back as exactly its characters |
| CString.LastIndex | Analog_Sensor.c:459 | `strrchr`: the returned position holds the character and none follows it; -1 (NULL) exactly when the character does not occur |
| Bits.LsbFirstAt | Analog_Sensor.c:481-485 | character i of the intended text is '1' exactly when bit i of the sample is set |
| Bits.DecodeLsbFirst | Analog_Sensor.c:476-490 | the n-character text of any value below 2^n decodes back to the value |
| Bits.RoundTrip | Analog_Sensor.c:476-490 | every 8-bit sample is recovered exactly from its eight characters |
| Bits.EncodeInjective | Analog_Sensor.c:476-490 | different samples give different texts |
| Bits.EncodeAt | Analog_Sensor.c:482-486 | each character is '1' for a set bit and '0' for a clear bit |
| Bits.AsWrittenLosesSample | Analog_Sensor.c:484-486 | the all-'0' text left by the code as written differs from the intended text of every non-zero sample, and decodes to 0 |
| Usart.BaudCalc | Analog_Sensor_2.c:109-118 | the register value is the quotient `clock/(16*baud)` minus one whenever that quotient is 1..65536; above 65536 the 16-bit truncation keeps `(quotient - 1) mod 65536`; when `clock < 16*baud` the subtraction wraps and the 16-bit result is 0xFFFF |
| Usart.BaudCalcDefault | Analog_Sensor_2.c:19-20 | 9600 baud at 16 MHz gives 103, the value hard-coded in the other firmware |
| Usart.BaudCalcAntitone | Analog_Sensor_2.c:114-117 | for a fixed clock, a faster baud rate never gives a larger register value, where neither value wraps |
| Usart.BaudCalcTruncationNotAntitone | Analog_Sensor_2.c:114-117 | across the 16-bit truncation that order fails: 15 baud gives 1129, 16 baud gives 62499 |
| Usart.UbrrSplit | Analog_Sensor_2.c:130-131 | the high byte times 256 plus the low byte is the 16-bit baud value, for every value |
| Usart.Port.InitUsart | Analog_Sensor_2.c:130-131 | UBRR1H and UBRR1L receive `baud >> 8` and the low byte, which together give back `baud` |
| Usart.Port.TxByte | Analog_Sensor_2.c:143-148 | the byte is appended to what has been sent, and nothing else changes |
| Usart.Port.TxRamData | Analog_Sensor_2.c:160-166 | exactly the bytes before the first NUL are sent, in order |
| Usart.Port.TxAtCmd | Analog_Sensor_2.c:151-157 | the program-memory variant sends the same bytes |
| Usart.RxUsart | Analog_Sensor_2.c:173-185 | the poll count never exceeds 16000; the data byte is returned at the first poll that finds the flag set; 0 is returned after 16000 failed polls |
| Usart.RxUsartOutcome | Analog_Sensor_2.c:173-185 | the poll succeeds exactly when the flag appears within 16000 polls, and times out exactly when it never does |
| Commands.TokenInRange | Analog_Sensor.c:596 | the test `cmd_word > 64 && cmd_word < 74` admits exactly the nine command characters 'A' to 'I' |
| Commands.ActionOf | Analog_Sensor.c:599-666 | each command character selects the arm whose `case` label it is; every other character reaches `default` |
| Commands.CaseLabelSelectsArm | Analog_Sensor.c:599-662 | every arm other than `default` is selected by its own label, a command character |
| Commands.DefaultOnlyOutOfRange | Analog_Sensor.c:596-665 | the switch reaches `default` exactly for the characters the range test rejects, so the SOS arm cannot run |
| Commands.ActionOfInjective | Analog_Sensor.c:33-41 | the nine characters select nine different arms |
| Commands.LastCommaBeforeToken | Analog_Sensor.c:456-462 | the last comma lies at least four places before the end of the string exactly when some comma does and none of the last four characters is one |
| Commands.GetCtrl | Analog_Sensor.c:456-462 | corrected: the index returned is four past the last comma of the string and inside it; there is one exactly when such a comma exists |
| Commands.GetCtrlAsWritten | Analog_Sensor.c:456-462 | as written: NULL + 4 exactly when the string has no comma, otherwise four past its last comma, with no comma after that one, possibly past the terminator |
| Commands.GetCtrlRefinesAsWritten | Analog_Sensor.c:456-462 | the guarded index and the unguarded pointer agree wherever the pointer lands inside the string |
| Commands.GetCtrlOnEmptiedBuffer | Analog_Sensor.c:442-462 | straight after `read_SMS` empties the string, the unguarded pointer is NULL + 4 and the guarded search finds nothing |
| Commands.CommandWordAsWritten | Analog_Sensor.c:594-595 | the character `*cmd` reads as written: the stray byte when `strrchr` returns NULL or the pointer lands past the buffer's end, the byte at the pointer while it lies inside the buffer (stale past the terminator), and the reply's character wherever the guarded search finds one |
| Commands.CommandAsWritten | Analog_Sensor.c:594-596 | as written, a command is acted on exactly when the character read passes the range test, and it is never the SOS arm |
| Commands.Command | Analog_Sensor.c:594-596 | corrected: a command comes out of a reply exactly when a character is found inside it that passes the range test, and it is never the SOS arm |
| Commands.CommandAgreesWhenGuarded | Analog_Sensor.c:594-596 | wherever the guarded search finds a character, the unguarded code acts on the same command |
| Commands.EmptiedBufferActsOnStray | Analog_Sensor.c:592-596 | on the string `read_SMS` leaves, the unguarded code acts on the stray byte alone, if it is 'A'..'I', while the guarded code acts on nothing |
| Commands.LateCommaActsOnStaleByte | Analog_Sensor.c:459-460 | a last comma among the final four characters of the string: the guarded code finds no command, the unguarded one reads the stale byte four places on |
| Commands.CommandWithDistress | Analog_Sensor.c:594-665 | variant without the range test: a character found in the reply always reaches the switch, and the SOS arm runs exactly for one outside 'A'..'I' |
| Commands.DistressOnlyWhereCommandDrops | Analog_Sensor.c:594-665 | the variant agrees with the firmware wherever the firmware acts, and answers with SOS exactly where the firmware's range test drops the character |
| Firmware.IsrAsWritten | Analog_Sensor.c:303-307 | the unbounded store fails exactly when `ind` is at or past the buffer's end; otherwise it stores the byte at `ind`, keeps every other byte, and advances `ind` by one, wrapping at 256 |
| Firmware.ArriveAsWritten | Analog_Sensor.c:303-307 | a run of bytes through the unbounded handler keeps the buffer's length, leaves the buffer exactly when the run is longer than the room left, and otherwise advances `ind` by the run's length |
| Firmware.ArriveAsWrittenInBounds | Analog_Sensor.c:303-307 | while bytes fit, the unbounded handler leaves the same buffer and cursor as the bounded one |
| Firmware.ArriveAsWrittenOverruns | Analog_Sensor.c:303-307 | any run of bytes longer than the room left makes the unbounded handler write past `data_received` |
| Firmware.Ascii | Analog_Sensor.c:476-490 | the text `bin_ascii` leaves has eight characters; as written it is "00000000" for every sample; corrected it decodes back to the sample |
| Firmware.CommandWord | Analog_Sensor.c:594-595 | `*cmd`: as written there is always a character, the stray byte at NULL + 4; once corrected there is one exactly when the guarded search finds a place; both builds read the reply's character wherever that search succeeds |
| Firmware.CommandOf | Analog_Sensor.c:594-596 | the dispatcher never selects the SOS arm |
| Firmware.CommandOfBuild | Analog_Sensor.c:594-596 | the dispatcher's command is the unguarded extraction's as written and the guarded one's once corrected |
| Firmware.LightCtrlTouchesOnlyItsBit | Analog_Sensor.c:601-620 | a single-light command sets its own PORTB bit (7 or 6) to the commanded level and leaves every other bit |
| Firmware.LightsCtrlTouchesOnlyLightBits | Analog_Sensor.c:621-636 | the two-light commands set bits 7 and 6 to the commanded level and leave every other bit |
| Firmware.ResRequestsKeepPort | Analog_Sensor.c:637-662 | resistance requests leave PORTB alone |
| Firmware.LightCtrlPushesStatus | Analog_Sensor.c:601-620 | a single-light command pushes exactly one status, "1 ON", "1 OFF", "2 ON" or "2 OFF", in either build |
| Firmware.LightsCtrlPushesInOrder | Analog_Sensor.c:621-636 | the two-light commands push pole 1's status and then pole 2's, as two separate pushes |
| Firmware.ResRequestPushesReading | Analog_Sensor.c:637-650 | a single-pole request pushes one text to that pole's identifier: "00000000" as written, a text that decodes to that pole's sample once corrected |
| Firmware.ResRequestBothPushesInOrder | Analog_Sensor.c:651-662 | the combined request pushes pole 1's text and then pole 2's, each to its own identifier; as written both are "00000000" |
| Firmware.AsWrittenArmsIgnoreSamples | Analog_Sensor.c:637-662 | as written, what every arm makes observable is the same whatever the two samples are, and `data_ascii` stays all '0' |
| Firmware.CorrectedReadingsDetermineSamples | Analog_Sensor.c:651-662 | corrected, two runs of the combined request that look the same had the same two samples |
| Firmware.SosDoesNotPush | Analog_Sensor.c:663-665 | the default arm only transmits "SOS" and pushes nothing |
| Firmware.FaultReportedOnEveryPass | Analog_Sensor.c:579-585 | over any run of passes, the number of "bad" pushes equals the number of passes that read the input high |
| Firmware.FaultPassesPushOnlyBad | Analog_Sensor.c:579-585 | the check never pushes anything but the "bad" notice for pole 1 |
| Firmware.FaultCheckLatched | Analog_Sensor.c:579-585 | variant with a one-shot latch: the latch ends set after a fault; once set, nothing is reported; before that, the check is the as-written one |
| Firmware.LatchedPassesQuiet | Analog_Sensor.c:579-585 | once the latch is set, no later pass writes PORTB or pushes anything |
| Firmware.LatchedPassesReportOnce | Analog_Sensor.c:579-585 | from an unlatched start, the "bad" notice is pushed exactly once if any pass reads the input high, and never otherwise |
| Firmware.AliasingLatent | Analog_Sensor.c:562-565 | as written, pushing the one shared `data_ascii` twice is indistinguishable from pushing a text per pole, since both are "00000000" |
| Firmware.AliasingLosesPole1 | Analog_Sensor.c:562-565 | with `bin_ascii` corrected and the aliasing kept, two different samples make the round never push pole 1's text |
| Firmware.ReportsCarryEverySample | Analog_Sensor.c:548-566 | every round of the start-up loop pushes the build's text of each of its samples to that sample's pole |
| Firmware.Controller.constructor | Analog_Sensor.c:153-157 | PORTB as `init_dio` leaves it, GSM key and sensor enable high; both buffers all NUL, the globals zeroed and the trace empty |
| Firmware.Controller.Delay | Analog_Sensor.c:87-130 | every delay ends with `count == 0` whatever it held, and changes nothing else |
| Firmware.Controller.TxByte | Analog_Sensor.c:256-261 | one byte is appended to the trace, and nothing else changes |
| Firmware.Controller.TxRamData | Analog_Sensor.c:265-271 | exactly the bytes before the first NUL are transmitted, in order |
| Firmware.Controller.SendDataUrl | Analog_Sensor.c:323-326 | one push of the payload to the endpoint is appended to the trace, and nothing else changes |
| Firmware.Controller.RxInterrupt | Analog_Sensor.c:303-307 | the byte is stored at `ind` and `ind` grows by one; a full buffer drops the byte (corrected) |
| Firmware.Controller.Receive | Analog_Sensor.c:303-307 | a run of bytes fills the buffer from `ind` on, and `ind` advances by their number, up to 100 |
| Firmware.Controller.PulseKey | Analog_Sensor.c:337-344 | the key pin is driven low and then high again, with the other PORTB bits kept, and the waits end with `count` 0 |
| Firmware.Controller.OnGsm | Analog_Sensor.c:335-346 | the key pin is pulsed low and then high with no other PORTB bit changed; the notifications are stored from `ind` on; `ind` ends at 0 |
| Firmware.Controller.EchoOff | Analog_Sensor.c:353-361 | sends "ATE0" CR; the reply is stored from `ind` on, and `ind` ends at 0 |
| Firmware.Controller.SendLine | Analog_Sensor.c:392-393 | a command line: the command's characters, then CR, appended to the trace |
| Firmware.Controller.TransmitSms | Analog_Sensor.c:373-380 | the bytes of `send_data_sms`, in the order the code transmits them, with `count` 0 after the waits |
| Firmware.Controller.SendDataSms | Analog_Sensor.c:371-382 | sends "AT+CMGS=", the quoted number, CR, the data byte and Ctrl-Z, in that order; the reply is stored from `ind` on, and `ind` ends at 0 |
| Firmware.Controller.SetTextMode | Analog_Sensor.c:389-399 | sends "AT+CMGF=1" CR and then "AT+CSDH=1" CR; each reply is stored from position 0, and `ind` ends counting the second reply |
| Firmware.Controller.PowerCheck | Analog_Sensor.c:406-418 | sends "AT" CR and answers true exactly when byte 2 of the buffer is 'O' after the reply; a reply shorter than three bytes leaves the answer to the stale byte; `ind` is 0 on success |
| Firmware.Controller.DeleteSms | Analog_Sensor.c:426-433 | sends the bulk delete command and CR; the reply is stored from position 0, and `ind` ends counting it |
| Firmware.Controller.ReadSms | Analog_Sensor.c:442-448 | empties the string in the buffer, sends "AT+CMGR=1" CR, `ind` 0 |
| Firmware.Controller.BinAscii | Analog_Sensor.c:476-490 | corrected: positions 0..7 of `data_ascii` hold the intended text of the sample, and there is no terminator |
| Firmware.Controller.BinAsciiAsWritten | Analog_Sensor.c:476-490 | as written: every position ends as '0' |
| Firmware.Controller.Convert | Analog_Sensor.c:476-490 | `data_ascii` ends holding the build's text of the sample |
| Firmware.Controller.SwitchLight | Analog_Sensor.c:601-620 | a single-light arm: PORTB with the pole's bit set or cleared, one PORTB write and the pole's status push appended, `ind` 0 |
| Firmware.Controller.SwitchLights | Analog_Sensor.c:621-636 | a two-light arm: both bits switched, pole 1's write and push before pole 2's, `ind` 0 |
| Firmware.Controller.ReportReading | Analog_Sensor.c:637-650 | a single-pole resistance arm: `data_ascii` holds the build's text of the sample, which is pushed to the pole's identifier, `ind` 0 |
| Firmware.Controller.ReportReadings | Analog_Sensor.c:651-662 | the combined resistance arm: pole 1's text pushed, then pole 2's, `data_ascii` left holding pole 2's text, `ind` 0 |
| Firmware.Controller.Act | Analog_Sensor.c:599-666 | one arm of the switch: PORTB, the trace, `data_ascii` and `ind` as the arm leaves them |
| Firmware.Controller.FaultCheck | Analog_Sensor.c:579-585 | a high input sets the sensor-enable bit and pushes "bad" for pole 1; a low input does nothing |
| Firmware.Controller.Dispatch | Analog_Sensor.c:594-666 | with a command in the reply: the bulk delete, then exactly that arm, `ind` 0; otherwise nothing changes |
| Firmware.Controller.HandleNotification | Analog_Sensor.c:592-666 | `read_SMS`, the reply stored over the emptied string, then the dispatch on the build's command |
| Firmware.Controller.Poll | Analog_Sensor.c:577-670 | one pass: the fault check; outside the window or without register digit '1' nothing else happens; otherwise the read, the reply, and either no action or the delete and the arm |
| Firmware.Controller.PowerUp | Analog_Sensor.c:534-541 | the probe, the power pulse and its notifications only when the probe fails, then echo off, with each reply stored where the firmware's `ind` puts it; `ind` 0 |
| Firmware.Controller.Startup | Analog_Sensor.c:530-545 | the buffer emptied, power-up, text mode and the bulk delete, in that order, each reply stored in turn, `ind` 0 |
| Firmware.Controller.ReportRound | Analog_Sensor.c:548-566 | corrected order: the fault check, then each pole's text pushed before the next conversion |
| Firmware.Controller.ReportRoundAliased | Analog_Sensor.c:548-566 | the code's order: both conversions, then two pushes of the shared buffer, both carrying pole 2's text |
| Firmware.Controller.StartupRound | Analog_Sensor.c:548-566 | one round in the given build: the code's aliased round as written, one text per pole corrected; `data_ascii` ends holding pole 2's text |
| Firmware.Controller.InitialReport | Analog_Sensor.c:548-566 | ten rounds, in order, with PORTB and the trace those rounds produce; `data_ascii` ends holding the last round's pole-2 text |

## Left out

- Register configuration: `CPU_PRESCALE`, `init_dio`'s direction register, `init_ADC`,
  `noise_cancel_ADC`, and the UCSR1B/UCSR1C writes of `init_USART`. None of them has logic
  to state. PORTB's value after `init_dio` is the constructor's.
- The call to `init_USART(BAUD)` in `main` (Analog_Sensor.c:531) is not repeated in
  `Startup`. Its register split is the one `Usart.Port.InitUsart` models.
- `read_ADC` and `change_input_ADC`: each sample is a byte parameter per pole.
- `send_data_url` is an empty function. It is kept as a push of (endpoint, payload) to the
  trace. The address argument `ip` is the empty string everywhere and is dropped.
- `store_ADC_value` (Analog_Sensor_2.c:95-105) is an empty function.
- Timing: the delay counts are kept as constants, but only the counter reset is modelled.
  The waits for an empty transmit register are not modelled.
- Interrupt concurrency: the receive interrupt is a method. The bytes of a reply arrive
  during the last wait of the operation that asks for them. Only `set_Textmode` clears `ind`
  between two of its waits, and it receives one reply per wait. Elsewhere, bytes arriving
  during an earlier wait of the same operation would leave the same buffer and `ind`.
- `Firmware.Controller.Poll`: `read_SMS` does not wait, so the reply to `AT+CMGR=1` may
  have only begun to arrive when `get_ctrl` runs. The parameter `reply` is what has arrived
  by then, and may be empty. `Commands.EmptiedBufferActsOnStray` states the empty case.
- Firmware.Controller.Receive: both builds store bytes through the bounded handler. The
  firmware's unbounded store is modelled on its own, by `Firmware.IsrAsWritten` and
  `Firmware.ArriveAsWrittenOverruns`, and is not threaded through the controller.
- CString.CLen: a buffer with no NUL is taken to end at its last byte. `strrchr` on such a
  buffer would read on past `data_received`, and the model does not follow it there.
- Commands.CommandWordAsWritten: the memory outside `data_received` is one parameter,
  `stray`, rather than a model of what lies there.
- Analog_Sensor.c's own `Rx_USART` (Analog_Sensor.c:278-292) is never called. It is the same
  loop as `Usart.RxUsart`, with an 8-bit result.
- Analog_Sensor.c's `Tx_USART_ram_data` and Analog_Sensor_2.c's are two copies of one loop,
  one per firmware. Each is modelled over its own firmware's state.
- The test loop of Analog_Sensor_2.c's `main` (Analog_Sensor_2.c:264-288) only echoes a
  sample.
- The unused token set of Analog_Sensor_2.c (lines 33-39) is left out. The command
  characters are configuration, and the model uses those of Analog_Sensor.c.
- The unused `flag` global (Analog_Sensor.c:74) is left out.
- `send_data_sms` has no caller. It is modelled by `Firmware.Controller.SendDataSms`.
- Usart.BaudCalcAntitone: stated only where neither rate wraps. Across the 16-bit
  truncation the order fails, as `Usart.BaudCalcTruncationNotAntitone` shows.
- Firmware.IsrAsWritten: the store past the buffer is not modelled as a write to the memory
  beyond it. The model only records that it happens, as `None`.
- The model follows the code where its comments or names suggest otherwise:
  - `bin_ascii` orders bits least significant first, although the comment at the call
    writes the text as `0b"xxxxxxxx"`.
  - A character outside 'A'..'I' is dropped silently, so the `default` arm never sends its
    distress text. `Commands.CommandWithDistress` is the variant in which it does.
  - The fault check has no memory and reports on every pass. `Firmware.FaultCheckLatched`
    and `Firmware.LatchedPasses` are a one-shot variant.
  - The fault is taken when PINB3 reads high, although the pin list calls the input active
    low.

## Findings

| source | as written | input that shows it | evidently intended | confidence | as-written member | corrected member |
|---|---|---|---|---|---|---|
| Analog_Sensor.c:484-486 | the unconditional `data_ascii[i] = '0'` follows the conditional store of '1', so every character ends as '0' | any sample other than 0, e.g. 0x01 | character i is '1' exactly when bit i is set | high, not executed | Firmware.Controller.BinAsciiAsWritten, Bits.AsWrittenLosesSample, Firmware.AsWrittenArmsIgnoreSamples | Firmware.Controller.BinAscii, Bits.RoundTrip, Firmware.CorrectedReadingsDetermineSamples |
| Analog_Sensor.c:459-461 | `strrchr` returns NULL when the string holds no comma, and the code adds 4 and dereferences it; a comma among the last four characters gives a pointer past the terminator | the buffer as `read_SMS` leaves it, first byte NUL, which is the state `get_ctrl` is called in; or a reply ending in ",AB" | the command character is taken only when it lies inside the reply | high, not executed | Commands.CommandAsWritten, Commands.EmptiedBufferActsOnStray, Commands.LateCommaActsOnStaleByte | Commands.Command, Commands.CommandAgreesWhenGuarded |
| Analog_Sensor.c:303-307 | the interrupt stores at `data_received[ind]` with no bound, and outside the 15..19 window nothing in the loop resets `ind` | `ind` = 20 followed by 81 more bytes from the modem (unsolicited result codes) | bytes beyond the 100-byte buffer are dropped | medium, not executed | Firmware.IsrAsWritten, Firmware.ArriveAsWrittenOverruns | Firmware.Controller.RxInterrupt, Firmware.Controller.Receive |
| Analog_Sensor.c:562-565 | `data1` and `data2` both point at `data_ascii`, and both pushes come after the second conversion, so pole 1's push carries pole 2's text; while `bin_ascii` leaves "00000000" this cannot be seen, and it surfaces once that is fixed | with `bin_ascii` corrected, two samples that differ, e.g. 1 and 2 | each pole's push carries its own reading | high, not executed | Firmware.Controller.ReportRoundAliased, Firmware.AliasingLatent, Firmware.AliasingLosesPole1 | Firmware.Controller.ReportRound, Firmware.ReportsCarryEverySample |

# Verified models of the course labs' protocols

The repository holds ESP32-C3 and Raspberry Pi lab programs and the ESP-IDF examples they build on. This project
models their algorithmic pieces and proves what they are for. `dafny verify dfyconfig.toml` checks everything.

**Morse over light.** A sender turns a message into timed light, a receiver turns timed light back into text. A code
may begin another code, so only the gaps carry the framing. `Waveform` describes the light: tokens (letters and
silences), the items a sender emits, and the pulses and gaps they merge into. `Decoding` has what both receivers do
between edges, apart from their thresholds, with a recovery theorem for any thresholds that fit. `MorseSender` is both
sender programs, as a class that drives the LED. `MorseAlphabet` spells out both cases of the alphabet and the
International Morse code, holds the programs' table and lookup against them, and gives `MorseText`, the text a message
stands for, its letters.
- Lab 5.3 (`EdgeReceiver`, `FastLink`, `LongSilences`): interrupts stamp the edges, sender and receiver have clocks of
  their own, and every measurement may be off. `LinkLaw` gives the exact condition on dot lengths, tolerance and
  jitter under which every message survives: `3*|ds - dr| + jitter <= tol` and `6*dr + jitter < 7*ds`. A letter is
  printed at the next rising edge, so results speak of the output with the letter still in the buffer. Silences are
  kept in a 32-bit int and wrap; `LongSilences` says, message by message, exactly which ones survive that.
- Labs 5.1 and 5.2 (`SampledReceiver`, `SampledLink`, `SampleLaw`, `SampleRate`, `SlowLink`): a fixed dot of 100 ms, a
  light sensor sampled with any phase, and an idle timeout of one second. The samples may be 49001 microseconds apart
  and no more. Silences of exactly six dots (the word threshold) or ten (the timeout) read differently from schedule
  to schedule, all others never do. The rest between two repetitions lasts exactly ten dots, so a message with
  anything to print, sent more than once, is printed reliably if and only if it begins or ends with a space.
- `BatchDecoding` is the reference that sees the whole recording at once; the streaming decoder agrees with it on
  every recording, noise included.

**URI percent-coding** (`UriTables`, `UriCoding`, `UriWindows`, `UriRedirect`, `UriMachine`, `UriBuffers`). Encoding and
decoding as functions on byte strings, with the laws between them; what every kind of window decodes to in every mode,
and what each table escapes, with all digits and characters spelled out; the decoder's three-state machine, byte by
byte; and the C routines on buffers, which may be one and the same buffer. The uri_component table is held against
sections 2.1 and 2.3 of RFC 3986.

**The I2C device manager** (`I2cSpec`, `I2cInvariant`, `I2cRegistry`, `I2cSetup`, `I2cAttempts`, `I2cRuns`, `I2cStray`,
`I2cOutlive`, `I2cManager`, `I2cPlay`). Ports with reference counts, buses and devices created on demand, a registry,
and a retry loop that may drop a handle without giving its reference back. Each API call is one step; the driver's
answers, memory and lock timeouts are arguments. Handles carry the name of the bus they were made on, so a handle that
outlives its bus shows. `I2cRegistry`, `I2cSetup` and `I2cAttempts` say what single calls do in terms of what the
client asked for and what the driver answered.

**OLED pixel repacking** (`PixelRepack`). Row-major bits, highest first, become inverted bits in vertical pages.

**Scan results** (`ScanHistory`, `ScanLists`). Two linked lists on the heap, filled by the radios in any order with
memory failing at will, and handed over as one. `ScanHistory` says what a list must hold from the reports alone.

**Wi-Fi connection** (`WifiConnect`, `WifiHistory`, `WifiExhaustion`, `WifiSemaphores`, `WifiStation`). A waiting
caller and event handlers over two binary semaphores, all interleavings of their steps. What the protocol promises, it
keeps for calls that begin with no handler registered; a call after one that succeeded begins with them, and each
promise comes with the exact condition for that case. `WifiHistory` tells the counts and flags from the events that
reached the handlers, and shows that a call whose addresses have come is on its way to its end.

**Moving average** (`RingFilter`). Eight-slot rings over reals against the history of all samples.

`Folds` and `Options` are shared helpers.

Where code and documentation disagree, the model follows the code. The READMEs of Labs 5.1 and 5.2 speak of dots of
200 ms and thresholds to match; the code has 100 ms, 250 ms and 600 ms. The bit comment beside one word of the refresh
table (`common_components/protocol_examples_common/protocol_examples_utils.c:170`) reads 0xb8000001; the word is
0xd8000001. The header calls the result of `example_uri_encode` the count of escaped characters; it is the number of
bytes written. A comment in the Lab 5.3 receiver starts word gaps at six units; the test is strictly greater. In the
Lab 5.2 receiver the symbol gap constant is defined and never used.

## Model

| member | source | states |
|---|---|---|
| MorseCode.DecodeMorse | lab5_3/receiver/main/lab5_3.c:109-129 | the search over letters, then digits, returns the character of the table entry equal to the pattern, '?' if there is none, NUL for an empty pattern |
| MorseCode.LookupInvertsCode | lab5_3/receiver/main/lab5_3.c:47-129 | a pattern decodes to a letter or digit if and only if it is that character's code: no two codes are equal |
| MorseCode.LongPatternUnknown | lab5_3/receiver/main/lab5_3.c:109-129 | anything longer than five symbols decodes to '?' |
| MorseAlphabet.LetterCodes | lab5_3/sender/send.c:27-147 | a letter of either case, the two alphabets written out side by side, is looked up as its table entry |
| MorseAlphabet.DigitCodes | lab5_3/sender/send.c:27-149 | so is each digit |
| MorseAlphabet.NoOtherCodes | lab5_3/sender/send.c:143-154 | the space has its mark, and any character outside both alphabets and the digits has no code |
| MorseAlphabet.TableIsMorse | lab5_3/sender/send.c:27-64 | each of the 36 table entries is its character's code in International Morse, read off a chart of that code by length and dots before dashes |
| MorseAlphabet.PieceIsToUpper | lab5_3/sender/send.c:143-154 | upper-casing and the test for a code agree, on every character, with the capital at the same place of the written-out alphabets |
| MorseSender.Sender.CalculateTiming | lab5_3/sender/send.c:67-88 | from characters per second: the dot by the specification, dash and letter gap three dots, a word gap seven, the rest between repetitions two word gaps |
| MorseSender.DotLaw | lab5_3/sender/send.c:67-77 | ten dots take no longer than one character at that speed, and no longer whole number of microseconds would do |
| MorseSender.Sender.FixedTiming | lab5_1/send.c:117-200 | the same ratios for a dot of 100 ms, the rest one word gap |
| MorseSender.Sender.SendDot | lab5_3/sender/send.c:156-161 | one dot of light and one of darkness are appended to the trace, the LED is off again |
| MorseSender.Sender.SendDash | lab5_3/sender/send.c:164-169 | three dots of light and one of darkness |
| MorseSender.Sender.SendMorseChar | lab5_3/sender/send.c:172-188 | a code's symbols in order and two further dots of darkness; a space is four dots of darkness |
| MorseSender.Sender.SendMessage | lab5_3/sender/send.c:191-206 | the trace grows by exactly the items of the message's tokens: letters of either case as their capital at the same place of the alphabet, characters without a code leave nothing |
| MorseSender.Sender.Transmit | lab5_3/sender/send.c:264-273 | the trace grows by the repeated message with the rest in between and none at the end |
| Waveform.MarksOfTokens | lab5_1/send.c:117-166 | merging neighbouring stretches of what is emitted gives one pulse per symbol, with gaps of one unit inside a letter, three between letters, seven between words |
| Decoding.Recovery | lab5_3/receiver/main/lab5_3.c:155-224 | thresholds that fit a sender decode every token stream to its text, the last letter in the buffer, through every independent shift of pulses and gaps they allow for |
| Decoding.Int32Law | lab5_3/receiver/main/lab5_3.c:164-204 | a difference of time stamps is kept as the one 32-bit int that differs by a multiple of 2 to the power of 32 |
| MorseText.MessageText | lab5_3/sender/send.c:143-202 | reading a message's letters and silences gives its words: letters as the capitals of the written-out alphabets, unsupported characters dropped, runs of spaces collapsed, ends trimmed |
| MorseText.TransmissionText | lab5_3/sender/send.c:264-273 | a message sent any number of times reads as that many copies of its normal form, single spaces in between |
| BatchDecoding.StreamingIsBatch | lab5_3/receiver/main/lab5_3.c:140-225 | on every recording the streaming decoder prints, pending letter included, what cutting it at its gaps and looking each unbounded group up gives; the buffer never holds more than nine symbols |
| BatchDecoding.CappedLookup | lab5_3/receiver/main/lab5_3.c:207-216 | symbols dropped from a full buffer never change the decoded letter |
| EdgeReceiver.Receiver.constructor | lab5_3/receiver/main/lab5_3.c:87-98 | the windows are the dot and three dots, each plus or minus the truncated tolerance; letters end after more than two dots of silence, words after more than six |
| EdgeReceiver.WindowLaw | lab5_3/receiver/main/lab5_3.c:87-222 | a pulse is a dash within the tolerance of three dots, else a dot within the tolerance of one, else dropped; a silence of up to two dots keeps the letter, up to six ends it, longer ones end a word |
| EdgeReceiver.Receiver.OnEdge | lab5_3/receiver/main/lab5_3.c:156-223 | one event changes buffer, output and edge times as the step function says, within the ten bytes of the buffer |
| EdgeReceiver.Receiver.Decode | lab5_3/receiver/main/lab5_3.c:155-225 | the loop over the queue is the fold of the step function |
| EdgeReceiver.EdgesRun | lab5_3/receiver/main/lab5_3.c:158-222 | on the edges of any recording at positive times, even behind a stray first falling edge, the two-time-stamp bookkeeping measures exactly its pulses and gaps |
| EdgeReceiver.StrayRun | lab5_3/receiver/main/lab5_3.c:199-222 | falling edges from before the first pulse, however many and whenever, add no symbol and disturb nothing |
| FastLink.EndToEnd | lab5_3/sender/send.c:191-273 | from the sender's trace, through clock mismatch and jitter within the bounds of the link law, edge by edge through the receiver: output plus pending letter are the copies of the normal form |
| FastLink.LinkLaw | lab5_3/receiver/main/lab5_3.c:87-222 | every message, any number of times, through every channel of this jitter is recovered if and only if three times the difference of the dots plus the jitter is within the tolerance and seven sender dots exceed six receiver dots by more than the jitter |
| FastLink.MismatchLaw | lab5_3/receiver/main/lab5_3.c:87-98 | with the default tolerance of one half and no jitter: if and only if 6*dr < 7*ds and 3*ds <= 3*dr + dr/2 |
| FastLink.JitterLaw | lab5_3/receiver/main/lab5_3.c:87-222 | with equal clocks the link tolerates independent jitter if and only if it is at most the configured tolerance |
| FastLink.EdgesAreBatch | lab5_3/receiver/main/lab5_3.c:140-225 | the task itself, on the edges of any recording, prints what the reference decoder finds, whether the recording ends on a falling edge or on a rising one that has already judged the last gap |
| LongSilences.SilenceLaw | lab5_3/receiver/main/lab5_3.c:163-195 | with clocks, tolerance and jitter as the link law wants them, a message survives every measurement, however long its silences, if and only if each silence of seven units or more, wherever the jitter puts it and wrapped to 32 bits, still exceeds six receiver dots |
| LongSilences.ApartPrinted | lab5_3/receiver/main/lab5_3.c:163-195 | two letters E any number of spaces apart, edge by edge through the receiver, are printed as two words, two letters or an I, as their wrapped silence exceeds six receiver dots, two, or neither |
| LongSilences.LongSilenceLost | lab5_3/receiver/main/lab5_3.c:163-166 | for every such link there is a message of this kind that is printed as an I |
| SampledReceiver.Receiver.OnTimeout | lab5_2/main/lab5_2.c:175-187 | a letter idle for more than a second is printed with a new line, once |
| SampledReceiver.Receiver.OnSample | lab5_2/main/lab5_2.c:171-237 | one pass of the loop: timeout first, then a change of light, with the code's thresholds |
| SampledReceiver.Receiver.Receive | lab5_2/main/lab5_2.c:158-241 | the loop over samples is the fold of one pass |
| SampledReceiver.ThresholdLaw | lab5_2/main/lab5_2.c:27-215 | pulses below 50 ms are dropped, below 250 dots, from there on dashes; silences up to 250 ms keep the letter, up to 600 end it, longer ones end a word; more than 22 mV is light |
| SampledLink.Track | lab5_2/main/lab5_2.c:171-240 | for every schedule with samples at most 100 ms apart, no pulse is missed or split, each is measured within what the step costs in whole milliseconds, and the task's state is that of an edge decoder on what was seen |
| SampledLink.SampledText | lab5_2/main/lab5_2.c:158-241 | with samples at most 49001 microseconds apart, once the line has idled, the text and one final new line are printed, whatever the schedule, if no silence is on a threshold |
| SampleRate.StepLaw | lab5_2/main/lab5_2.c:171-240 | all streams without such a silence are printed under all schedules of a step if and only if the step is at most 49001 microseconds |
| SampleRate.TooSlow | lab5_2/main/lab5_2.c:196-215 | at 49002 microseconds there is a schedule under which the message EE is printed as an I |
| SampleLaw.ScheduleLaw | lab5_2/main/lab5_2.c:171-240 | for every step up to 49001 microseconds: every schedule prints a token stream's text, and no two schedules print it differently, if and only if no silence between two letters lasts exactly six or exactly ten dots, or the step is a single microsecond |
| SampleLaw.LateText | lab5_2/main/lab5_2.c:171-240 | there is a complying schedule that reads every silence for what it is, and for steps of two microseconds and more one that reads each as a millisecond longer |
| SampleLaw.SameText | lab5_2/main/lab5_2.c:196-215 | those two readings are equal exactly for streams with no silence on a threshold |
| SampleLaw.RepeatLaw | lab5_1/send.c:193-201 | with more than a microsecond between samples, a message sent several times is printed the same way under every schedule if and only if it has no supported character, or the first or the last of these is a space |
| SampleLaw.TransmissionPage | lab5_1/send.c:193-201 | when printed reliably, each repetition is on lines of its own |
| SlowLink.TraceLevel | lab5_1/send.c:117-130 | the level of the LED at any time is that of the merged pulses, shifted by the silence in front |
| SlowLink.MessageReceived | lab5_1/send.c:152-201 | samples of the slow sender's LED make the receiver print a message that is sent once, or that begins or ends with a space or has nothing to print: words a space apart, a new line for two spaces or more, a final new line per repetition, and nothing else |
| UriTables.ComponentEscapes | common_components/protocol_examples_common/protocol_examples_utils.c:118-136 | the uri_component table escapes exactly the characters that are not unreserved in section 2.3 of RFC 3986 |
| UriTables.PercentEscaped | common_components/protocol_examples_common/protocol_examples_utils.c:80-201 | of the seven escape types only refresh leaves the percent sign alone |
| UriWindows.TableLaw | common_components/protocol_examples_common/protocol_examples_utils.c:80-201 | for each of the seven escape types, the bytes escaped are those below the space, but for the last two types those from 0x7f on, and of the others exactly the characters listed for it |
| UriWindows.HexLaw | common_components/protocol_examples_common/protocol_examples_utils.c:277-352 | a byte is taken for a digit if and only if it is one of "0123456789abcdef" or "0123456789ABCDEF", and has the value of its place there |
| UriWindows.TripletLaw | common_components/protocol_examples_common/protocol_examples_utils.c:275-353 | a percent sign and two of these digits, for places i and j, decode to the byte 16 * i + j in plain and URI mode whatever follows; in a URI a question mark ends decoding; a redirect does the same for bytes between the percent sign and 0x7f and keeps the other triplets |
| UriWindows.BothBitsLaw | common_components/protocol_examples_common/protocol_examples_utils.c:298-348 | with both bits of the type set, the second digit decides: up to nine a redirect's rule holds, above it a URI's |
| UriWindows.BrokenLaw | common_components/protocol_examples_common/protocol_examples_utils.c:259-358 | in every mode: a byte by itself, a percent sign without a digit, without a second digit, or at the end, each with what is written and read |
| UriCoding.RoundTrip | common_components/protocol_examples_common/protocol_examples_utils.c:223-364 | for a table that escapes the percent sign, plain decoding returns the original and URI decoding its prefix through the first question mark |
| UriCoding.RoundTripLaw | common_components/protocol_examples_common/protocol_examples_utils.c:223-364 | a table can be decoded on all inputs, in either of these modes, if and only if it escapes the percent sign |
| UriCoding.EscapeLength | common_components/protocol_examples_common/protocol_examples_utils.c:206-236 | the bytes written are the input's plus two for each one the counting pass counts |
| UriCoding.EscapeConcat | common_components/protocol_examples_common/protocol_examples_utils.c:223-236 | encoding distributes over concatenation |
| UriCoding.ComponentForm | common_components/protocol_examples_common/protocol_examples_utils.c:118-236 | uri_component output is unreserved characters and triplets with upper-case digits only |
| UriCoding.RedirectStages | common_components/protocol_examples_common/protocol_examples_utils.c:298-353 | where every percent sign has two hex digits behind it, redirect decoding keeps it so, and plain decoding afterwards is plain decoding through the first question mark |
| UriRedirect.RedirectLaw | common_components/protocol_examples_common/protocol_examples_utils.c:255-364 | on every input, plain decoding of a redirect is plain decoding if and only if, up to the question mark where the redirect stops, no percent sign follows another that waits for a digit, and nothing behind that question mark decodes to a byte |
| UriRedirect.StrayLost | common_components/protocol_examples_common/protocol_examples_utils.c:290-296 | a percent sign emitted as an invalid digit is never made up for, whatever follows it |
| UriRedirect.RedirectPreserves | common_components/protocol_examples_common/protocol_examples_utils.c:298-353 | where every percent sign has its two hex digits, the two stages are plain decoding if and only if no question mark, literal or encoded, has anything behind it |
| UriRedirect.RedirectStray | common_components/protocol_examples_common/protocol_examples_utils.c:275-358 | "%%41" is decoded to an A by the two stages and not by plain decoding; the stray percent sign of "%x" does no harm |
| UriRedirect.UriIsCutPlain | common_components/protocol_examples_common/protocol_examples_utils.c:255-364 | on every input, URI decoding is plain decoding through the first question mark if and only if none is taken for an invalid digit with more to decode behind it, which does not end decoding |
| UriRedirect.WellFormedUri | common_components/protocol_examples_common/protocol_examples_utils.c:321-333 | where every percent sign has its two hex digits, it always is |
| UriMachine.MachineIsUnescape | common_components/protocol_examples_common/protocol_examples_utils.c:255-364 | the three-state machine, byte by byte, writes and reads what decoding window by window does, on every input and in every mode, ends in the middle of a triplet included |
| UriMachine.StepShape | common_components/protocol_examples_common/protocol_examples_utils.c:255-359 | bytes written plus bytes held back never exceed bytes read |
| UriBuffers.CountEscaped | common_components/protocol_examples_common/protocol_examples_utils.c:206-221 | the counting pass |
| UriBuffers.EscapeUri | common_components/protocol_examples_common/protocol_examples_utils.c:204-236 | the encoding pass writes exactly the encoded form, into another buffer or into the same one if writing stays behind reading; nothing else changes, and the result is the position behind it |
| UriBuffers.AheadLaw | common_components/protocol_examples_common/protocol_examples_utils.c:206-236 | writing stays behind reading if and only if twice the count over all but the last byte fits between the two starts |
| UriBuffers.PutDecoded | common_components/protocol_examples_common/protocol_examples_utils.c:298-353 | the second hex digit: the byte, or the triplet with its digits read back from the source, also when that is the buffer written to |
| UriBuffers.UnescapeUri | common_components/protocol_examples_common/protocol_examples_utils.c:240-365 | for every input and mode the decoder writes what decoding the original bytes gives, in place or into another buffer; no more is written than read, and nothing else changes |
| UriBuffers.UriEncode | common_components/protocol_examples_common/protocol_examples_utils.c:368-376 | the component encoding and its length in 32 bits, zero without a buffer |
| UriBuffers.UriDecode | common_components/protocol_examples_common/protocol_examples_utils.c:379-388 | the URI decoding, triplets with digits of either case included, nothing without a buffer |
| I2cManager.Manager.RegisterDevice | lab4_1/managed_components/esp-idf-lib__i2cdev/i2cdev.c:69-89 | the first free slot of the port takes the device; without one nothing changes and memory is reported short |
| I2cManager.Manager.DeregisterDevice | lab4_1/managed_components/esp-idf-lib__i2cdev/i2cdev.c:92-108 | the first slot that holds the device is freed, for a valid port |
| I2cManager.Manager.CreateMutex | lab4_1/managed_components/esp-idf-lib__i2cdev/i2cdev.c:136-192 | tables and result are those of the specification, and no port mutex stays taken |
| I2cManager.Manager.DeleteMutex | lab4_1/managed_components/esp-idf-lib__i2cdev/i2cdev.c:194-268 | handle and registry entry go, one reference is given back if the lock is to be had, the last one takes the bus; no port mutex stays taken |
| I2cManager.Manager.SetupPort | lab4_1/managed_components/esp-idf-lib__i2cdev/i2cdev.c:326-450 | installs the bus on the device's pins or holds them against those of the installed one, with each error; no port mutex stays taken |
| I2cManager.Manager.SetupDevice | lab4_1/managed_components/esp-idf-lib__i2cdev/i2cdev.c:454-559 | the port first, then a handle and a reference if there is none yet |
| I2cManager.Manager.OperationWithRetry | lab4_1/managed_components/esp-idf-lib__i2cdev/i2cdev.c:562-657 | the loop leaves tables, result and pauses of the specified tries, with no port mutex taken on any path |
| I2cManager.Manager.DoneAll | lab4_1/managed_components/esp-idf-lib__i2cdev/i2cdev.c:833-897 | port after port, registered handles and bus are removed where the lock is to be had, the registry cleared everywhere |
| I2cRegistry.CreateLaw | lab4_1/managed_components/esp-idf-lib__i2cdev/i2cdev.c:69-192 | creation fails for want of memory only, gives the descriptor its mutex, and the device the first free slot of its port if the lock is had and there is one; nothing else changes, and nothing at all the second time |
| I2cRegistry.DeletionLaw | lab4_1/managed_components/esp-idf-lib__i2cdev/i2cdev.c:194-268 | deletion succeeds: handle, mutex and slot go, the port loses one reference if the lock is had, and with the last one its bus and its pins; other ports and slots stay |
| I2cSetup.PinsAsked | lab4_1/managed_components/esp-idf-lib__i2cdev/i2cdev.c:347-444 | after a set-up that succeeded the port's SDA and SCL are each the pin the device asked for, or, if it asked for none, the default on a bus just installed and what it was on any other; the descriptor records both |
| I2cSetup.SetupLaw | lab4_1/managed_components/esp-idf-lib__i2cdev/i2cdev.c:326-450 | a set-up succeeds if and only if the lock is had, the port exists, and each pin asked for is the installed bus's, or the bus can be made on real pins; the error of each other case |
| I2cSetup.SetupTwice | lab4_1/managed_components/esp-idf-lib__i2cdev/i2cdev.c:326-450 | setting up a device that was set up succeeds and changes nothing |
| I2cSetup.SetupFails | lab4_1/managed_components/esp-idf-lib__i2cdev/i2cdev.c:326-450 | a set-up that fails changes no descriptor and no installed port, and installs none |
| I2cSetup.RunPins | lab4_1/managed_components/esp-idf-lib__i2cdev/i2cdev.c:326-450 | over every run by the client's rule, a port's pins are those asked for by the device whose call installed its bus |
| I2cPlay.Play | lab4_1/managed_components/esp-idf-lib__i2cdev/i2cdev.c:110-823 | a run of the client's calls on the manager is the run of the specification, so a manager used by the rule from the start is in a state with the invariant |
| I2cRuns.RunInv | lab4_1/managed_components/esp-idf-lib__i2cdev/i2cdev.c:69-657 | in every state a client reaches that deletes only devices with an outstanding add: a port is installed exactly while it has a bus and then on real pins, every live handle is of that bus and its device records those pins, the count is that of the outstanding adds and of the spare references, a device is in one slot at most and only while its mutex exists |
| I2cRuns.BusLifetime | lab4_1/managed_components/esp-idf-lib__i2cdev/i2cdev.c:194-657 | over every such run the count is at least the number of live handles on the port, and a deletion that takes a bus away leaves no live handle behind, lock timeouts and dropped handles included |
| I2cRuns.PinsFixed | lab4_1/managed_components/esp-idf-lib__i2cdev/i2cdev.c:326-450 | one step by the client's rule keeps an installed bus and its pins, unless it deletes the only device on it |
| I2cOutlive.OutliveLaw | lab4_1/managed_components/esp-idf-lib__i2cdev/i2cdev.c:194-268 | after all devices of a port have been deleted, in any order, its bus is still there if and only if some device had been added again without a deletion, or a deletion missed the lock, since that bus was made |
| I2cRuns.DeleteLaw | lab4_1/managed_components/esp-idf-lib__i2cdev/i2cdev.c:218-254 | deleting a device that was never added keeps the invariant if and only if the reference taken is not one of an added device |
| I2cRuns.StrayDelete | lab4_1/managed_components/esp-idf-lib__i2cdev/i2cdev.c:218-254 | with one reference left, such a deletion strands a live handle on a port without a bus |
| I2cStray.StrayLaw | lab4_1/managed_components/esp-idf-lib__i2cdev/i2cdev.c:194-657 | after such a deletion, calls that keep to the client's rule can strand a live handle if and only if the reference taken was one that a device on the port still counts on |
| I2cRuns.RetryBound | lab4_1/managed_components/esp-idf-lib__i2cdev/i2cdev.c:573-653 | at most R + 1 tries and 20 * (3 * 2^R - 2) ms of pauses, 440 for R = 3 |
| I2cRuns.RetryBoundTight | lab4_1/managed_components/esp-idf-lib__i2cdev/i2cdev.c:573-653 | the bound on the pauses is reached |
| I2cAttempts.OkLaw | lab4_1/managed_components/esp-idf-lib__i2cdev/i2cdev.c:573-657 | told from the attempts and the state alone: the operation is OK if and only if in the last attempt made the locks were had, the port suited and had or got its bus, the device had or got a handle, and the transfer succeeded; every attempt before failed one of these; otherwise all R + 1 were made and the error is the named one of the last |
| I2cAttempts.AttemptLaw | lab4_1/managed_components/esp-idf-lib__i2cdev/i2cdev.c:573-653 | the same with the pauses: each failed attempt's 20 ms, doubled per retry and once more after a failed transfer, one after the other, none after the last failed transfer |
| I2cAttempts.StandLaw | lab4_1/managed_components/esp-idf-lib__i2cdev/i2cdev.c:573-653 | whether port and device have bus and handle afterwards: a handle stays unless a transfer failed with an invalid argument or state, a bus stays |
| I2cRuns.RetryStops | lab4_1/managed_components/esp-idf-lib__i2cdev/i2cdev.c:573-657 | each try works on the tables that the one before left, and the operation leaves those of its last; how a try ends is AttemptLaw's |
| I2cRuns.DoneLaw | lab4_1/managed_components/esp-idf-lib__i2cdev/i2cdev.c:833-897 | on a port it could lock, clean-up leaves exactly those live handles whose devices were not registered |
| PixelRepack.Flush | lcd/i2c_oled/main/i2c_oled_example_main.c:79-106 | every pixel of the area shows the inverse of its source bit, every other pixel what it showed before, and all accesses are in bounds |
| PixelRepack.EveryBitIsAPixel | lcd/i2c_oled/main/i2c_oled_example_main.c:60-60 | every bit of the display buffer is some pixel, so nothing outside the area can have changed |
| PixelRepack.SameCell | lcd/i2c_oled/main/i2c_oled_example_main.c:99-99 | two pixels share a display byte only in one column and one page |
| PixelRepack.PaintBit | lcd/i2c_oled/main/i2c_oled_example_main.c:100-104 | painting one bit inverts the source into it and leaves the other seven alone |
| PixelRepack.SourceLaw | lcd/i2c_oled/main/i2c_oled_example_main.c:81-95 | behind the palette, the source bit of a pixel is bit number width * y + x of the image read row after row, each byte from its highest bit |
| PixelRepack.DisplayLaw | lcd/i2c_oled/main/i2c_oled_example_main.c:97-104 | its display bit is the one found by reading page after page, column after column, each byte from its lowest bit |
| ScanHistory.ListAccounts | esp_hid_device/main/esp_hid_gap.c:154-240 | after any reports with any allocation failures, a list has one entry per address of a report not lost, newest address in front, holding the first name, the last non-zero signal strength, the first identifier with a length and the first class; for low energy, the first report alone |
| ScanHistory.SeenDistinct | esp_hid_device/main/esp_hid_gap.c:140-151 | those addresses are all different |
| ScanHistory.LossLaw | esp_hid_device/main/esp_hid_gap.c:157-240 | a report is lost if and only if memory is missing for a device not heard of before or for its name, or for the first name of a known classic device |
| ScanHistory.ScanAccounts | esp_hid_device/main/esp_hid_gap.c:1099-1138 | a scan of empty lists succeeds if and only if both radios start, and hands out the classic devices, then the low-energy ones, whatever was reported when |
| ScanHistory.SpoiltLaw | esp_hid_device/main/esp_hid_gap.c:1106-1120 | a scan leaves results behind if and only if only the second radio fails to start and some report for which memory sufficed came while waiting for the first |
| ScanHistory.StaleForever | esp_hid_device/main/esp_hid_gap.c:1101-1104 | with results left behind every later scan fails and changes nothing |
| ScanLists.FindScanResult | esp_hid_device/main/esp_hid_gap.c:140-151 | the first node with the address, null if there is none |
| ScanLists.ScanResultsFree | esp_hid_device/main/esp_hid_gap.c:125-136 | each node is freed once, in order, and none is read after it was freed |
| ScanLists.MergeInto | esp_hid_device/main/esp_hid_gap.c:157-175 | a known device gets what it lacked and the new signal strength, nothing at all if memory for its name is missing; its link is kept |
| ScanLists.Scanner.AddBtScanResult | esp_hid_device/main/esp_hid_gap.c:154-204 | both lists stay acyclic, disjoint, without duplicate addresses and as long as counted; the classic one is merged into or extended in front, the other not touched |
| ScanLists.Scanner.AddBleScanResult | esp_hid_device/main/esp_hid_gap.c:208-240 | the same for the low-energy list, where a known device stays as it was |
| ScanLists.Join | esp_hid_device/main/esp_hid_gap.c:1122-1131 | the chain of the one list, then of the other, acyclic, with the same entries |
| ScanLists.Scanner.HidScan | esp_hid_device/main/esp_hid_gap.c:1099-1138 | success and failure as specified; on success the caller owns one chain with as many nodes as reported and the globals are empty |
| WifiConnect.ConnectSafety | common_components/protocol_examples_common/wifi_connect.c:141-188 | over every interleaving of a call that began with no handler registered: if it waited and returned OK it has its address of each awaited kind, and the handlers never reconnect more often than allowed between two got-IP events |
| WifiHistory.HistoryLaw | common_components/protocol_examples_common/wifi_connect.c:31-105 | over every run from every beginning, told from the events that reached a handler and the counts they found: one reconnect for each disconnection not by roaming that found the count below the limit, since the last got-IP; an address has come if and only if its event of ours has, preferred for the sixth version; the handlers have given up if and only if some disconnection found the limit reached |
| WifiHistory.FailureLaw | common_components/protocol_examples_common/wifi_connect.c:31-188 | the count is that of the disconnections, roaming or not, since the last got-IP or the call's own reset |
| WifiHistory.SuccessLaw | common_components/protocol_examples_common/wifi_connect.c:70-188 | in a waiting call that began with no handler registered, once the awaited addresses have come every schedule with one more step of the handler and the caller's few ends the call, with ESP_FAIL only if the handlers gave up meanwhile and the driver's error only if it refused to connect |
| WifiExhaustion.ReconnectLaw | common_components/protocol_examples_common/wifi_connect.c:31-60 | for every beginning: the handlers keep to the retry limit in all runs if and only if none was registered before the call, or no retry is allowed |
| WifiExhaustion.OneTooMany | common_components/protocol_examples_common/wifi_connect.c:34-60 | otherwise a run exceeds it by one: the call clears the count of the handlers that were there before |
| WifiConnect.ExhaustionUnblocks | common_components/protocol_examples_common/wifi_connect.c:31-48 | in a call that began with no handler registered, after exhaustion every schedule that lets the handler finish and then gives the waiting caller its few steps ends with ESP_FAIL, unless the driver refused to connect |
| WifiExhaustion.UnblockLaw | common_components/protocol_examples_common/wifi_connect.c:31-188 | for every beginning: exhaustion ends the call so under every such schedule if and only if the call does not wait or no handler was registered before it |
| WifiExhaustion.HangLaw | common_components/protocol_examples_common/wifi_connect.c:38-46 | a waiting call can come to hang for good, with no handler left to give its semaphore, if and only if handlers were registered before it |
| WifiConnect.TrustLaw | common_components/protocol_examples_common/wifi_connect.c:141-188 | OK can be relied on over all runs of a waiting call if and only if no handler was left registered before it |
| WifiConnect.StaleSuccess | common_components/protocol_examples_common/wifi_connect.c:143-187 | otherwise disconnections before the count is cleared give the new semaphores and are then forgotten |
| WifiSemaphores.DeletedLaw | common_components/protocol_examples_common/wifi_connect.c:38-45 | no handler gives a deleted semaphore in any run of the call if and only if, with handlers registered before it, nothing dangles and no second semaphore is to be made, and without, nothing dangles or the call makes its own |
| WifiStation.Station.Begin | common_components/protocol_examples_common/wifi_connect.c:141-142 | a call begins with the variables as they were left |
| WifiStation.Station.Play | common_components/protocol_examples_common/wifi_connect.c:31-199 | the program under any schedule does what the runs of the model do; so in a call that began without handlers an OK means its addresses, and reconnects stay within the limit |
| WifiStation.Station.Proceed | common_components/protocol_examples_common/wifi_connect.c:141-188 | one step of the connecting task |
| WifiStation.Station.OnDisconnect | common_components/protocol_examples_common/wifi_connect.c:31-60 | asks for a reconnection if and only if the disconnection is not by roaming and the count was below the limit; counts in any case, and begins to give up at the limit |
| WifiStation.Station.OnGotIp | common_components/protocol_examples_common/wifi_connect.c:70-78 | clears the count, whosever the address is |
| WifiStation.Station.OnGotIp6 | common_components/protocol_examples_common/wifi_connect.c:87-105 | gives the second semaphore for a preferred address of ours only |
| WifiStation.Station.Handle | common_components/protocol_examples_common/wifi_connect.c:38-46 | the rest of a handler: the semaphores, then the registrations |
| RingFilter.Filter.Push | lab4_3/main/lab4_3.c:95-98 | the ring cells hold the last eight samples of each axis, fewer in the beginning, turned by the number of pushes |
| RingFilter.SlotIsCount | lab4_3/main/lab4_3.c:97-97 | the next slot is the number of pushes modulo eight |
| RingFilter.PushHolds | lab4_3/main/lab4_3.c:95-98 | overwriting the oldest cell shifts the window by one sample |
| RingFilter.Filter.Get | lab4_3/main/lab4_3.c:99-103 | the mean of the last eight samples or fewer, zero for none |
| RingFilter.CellsSum | lab4_3/main/lab4_3.c:99-103 | adding up the cells in the order they lie adds up the window |
| RingFilter.MeanBounds | lab4_3/main/lab4_3.c:99-103 | the mean lies between the window's least and greatest sample |

## Left out

- FastLink.LinkLaw: assumes dot and dash windows that do not touch (tolerance below the receiver's dot), jitter below the sender's dot and seven dots that fit an int; silences are those that fit an int, LongSilences.SilenceLaw has the others.
- FastLink.JitterLaw: jitter below one dot and eight dots that fit an int, for the same reason.
- EdgeReceiver.Receiver.Decode: the queue drops no event and delivers them in order; the interrupt's level is the level after the edge.
- EdgeReceiver.Receiver.constructor: does not model 32-bit overflow of the configured thresholds.
- MorseSender.Sender.CalculateTiming: computes over reals, without rounding; products that do not fit an int are not modelled.
- MorseSender.Sender.Transmit: sleeps last as long as asked and writing the pin takes no time; lateness is in the channel's jitter. Both senders share the class, Lab 5.1's active-low pin is read as light.
- MorseSender.Sender.SendMessage: characters are plain, the end of a C string and `toupper` outside ASCII are not modelled.
- SampledReceiver.Receiver.Receive: readings are arguments; that they exceed the threshold exactly while the light is on is an assumption of the link results.
- UriBuffers.EscapeUri: within one buffer, only where writing stays behind reading; otherwise the source overwrites what is still to be read.
- UriBuffers.UnescapeUri: in one buffer, writing begins no further than reading; positions are indices, not pointers.
- UriBuffers.UriDecode: the end of the decoded bytes is not reported and no terminator written, as in the source.
- I2cRuns.RunInv: descriptors are named by their address and keep their port; API calls are atomic; clean-up comes last and is stated by DoneLaw; the count is unbounded and pauses are milliseconds asked for, not ticks.
- I2cManager.Manager.DoneAll: the deletion of the port mutexes and the result code are not modelled.
- I2cManager.Manager.SetupPort: pull-ups, address lengths, bus speeds and the build without locks are not modelled; a negative port number neither.
- I2cManager.Manager.DeleteMutex: the driver's failures to remove a handle or a bus are only logged by the source and are not modelled.
- PixelRepack.Flush: coordinates are natural numbers inside the display; the transfer to the panel is left out.
- ScanLists.Scanner.HidScan: the build with both radios; which reports reach the lists, and the callbacks' semaphores, are left out, reports arrive between the start of a radio and the end of its wait.
- ScanLists.Scanner.AddBtScanResult: the `usage` of a device is given with its report; how the library derives it is not part of this model, and for classic devices the source hands it a pointer's value.
- ScanHistory.StaleForever: the lists have no other way out; reports that come when no scan is running are left out.
- WifiConnect.ConnectSafety: one call at a time, registering or unregistering all handlers is one step, as are checking and giving a semaphore, and taking, deleting and forgetting one; driver errors that abort the program are left out.
- RingFilter.MeanBounds: samples are reals, rounding is not modelled.
- Statistics tasks, counters and logging of the receivers.
- GPIO, ADC, queues and tasks of the operating system: edges, samples and traces stand for them.
- i2cdev's legacy driver: its count grows with every transfer, so no lifetime theorem holds.
- HTTP, Ethernet, PPP, Thread, LCD widgets, HID report maps and GATT tables: fixed tables and calls into stacks.

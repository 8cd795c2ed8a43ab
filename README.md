# TCU pulse-parameter codec

A Dafny model of the pulse-parameter codec of the NeXtRAD timing control unit (TCU)
software, with proofs of its properties. The codec turns the timing parameters of a radar
experiment into register encodings and reads them back.

- **Clock ticks** (`Ticks`, ticks.dfy). A duration authored in microseconds becomes a whole
  number of clock periods (`_to_clock_ticks`). A second form is used by the tables `__str__`
  prints (`int(x * 1000) // clk`).
- **Hex literals** (`HexLiteral`, hex_literal.dfy). `_int_to_hex_str` zero-pads `hex(num)`
  to whole 16-bit words. It can swap the two bytes of every word, and it wraps the result
  as a VHDL bit-string literal `x"…"` (section 15.8 of IEEE 1076-2008). Both revisions of
  the encoder have identical text, so one method models them.
- **Creator, current revision** (`Creator`, creator.dfy; creator.py):
  - the PULSES header line (`to_pulses_string`);
  - the register literals of the HDL snippet (`to_vhdl_snippet`). Each pulse slot holds its
    width, PRI offset (`pri - pre_pulse - pulse_width`, in ticks), mode and frequency. Only
    the frequency is byte-swapped.
  - `Pulse` is the pulse record. It is also the `PulseParameters` class of the earlier
    revision, which only stores its four constructor arguments.
- **Creator, earlier revision** (`CreatorV1`, creator_v1.dfy; creator/creator.py). The
  `TCUParams` object is a class with the constructor defaults. Its snippet writes the raw
  PRI ticks in place of the offset.
- **Header parser** (`HeaderParser`, header_parser.dfy; parser.py). `HeaderFileParser`
  keeps the `PulseParameters` section as a map field.
  - `get_tcu_params` reads it. Every read goes through configparser's interpolation. A
    value the interpolation rejects (or a missing key) is the error value that stands for
    the `exit(65)` `_extract_param` intends. As written, the handler fails before that exit
    (see Findings). The constructor and `set_tcu_params` keep all ten keys present, so as
    the code stands only a rejected value reaches the handler.
  - `set_tcu_params` writes it in place. PULSES is built up one entry at a time.
- **Interpolation** (`Interpolation`, interpolation.dfy). configparser's default
  `BasicInterpolation`, applied to every value read: `%%` is one `%`, `%(name)s` is the
  value of another key, and any other `%` is an error. References nested more than ten
  levels deep are an error too.
- **Controller** (`Controller`, controller.dfy; controller.py):
  - `parse_header` widens 2-byte values to 4 bytes in the module-level state, modelled as a
    `Controller` class;
  - `write_registers` concatenates the pulse block;
  - `verify_registers` turns the `od -x` text of the pulse register into words and decodes
    pulse i from words 5i .. 5i+4;
  - the written pulse block as `od -x` shows it on a little-endian host: word k is the
    digits of byte 2k+1 followed by those of byte 2k. The readback of what
    `write_registers` wrote is proved through that view.
- **Helpers.** `Results` holds Option/Result. `Text` holds the Python string operations
  (`split`, `join`, `replace`, `lstrip`, slicing), with their algebra. `Numerals` holds
  hexadecimal and decimal numerals: `hex()`, `eval("0x…")`, `str` and `eval` on integers.

Python floats are exact reals in the model. `int()` on a float is truncation toward zero
(`Ticks.Int`). Floor division by the positive clock period is Dafny's `/` on a positive
divisor. Loops in the source are methods with loops in the model. Each method's `ensures`
ties its result or new state to a specification function, and the lemmas state the
properties of those functions.

Where the code and its documentation disagree, the model follows the code. Two examples:

- The docstring of `_int_to_hex_str` calls little-endian the default. The code's default
  is `'b'` (big-endian); see `HexLiteral.LiteralExamples`.
- Only the exact argument `'b'` selects big-endian. Any other value swaps the bytes.

## Model

| member | source | states |
|---|---|---|
| Ticks.ToClockTicks | creator.py:242-245 | a duration gives a non-negative tick count exactly when it is non-negative |
| Ticks.DisplayTicks | creator.py:146-152 | the `__str__` form `int(x * 1000) // clk` is non-negative for a non-negative duration and never positive for a negative one |
| Ticks.Int | creator.py:237-238 | `int()` truncates toward zero: the result is within one of the value, not above it for non-negative values and not below it for negative ones |
| Ticks.TicksBracket | creator.py:242-245 | the tick count t satisfies t·clk ≤ 1000·x < (t+1)·clk: the whole periods that fit, truncated, never rounded up |
| Ticks.TicksUnique | creator.py:242-245 | the tick count is the only integer whose periods bracket the duration |
| Ticks.TicksMonotone | creator.py:242-245 | a longer duration never gives fewer ticks |
| Ticks.TicksSuperadditive | creator.py:231-233 | the ticks of a sum are at least the sum of the ticks of its parts |
| Ticks.DisplayTicksAgree | creator.py:146-152 | for a non-negative duration the `__str__` form (truncate, then floor-divide) equals `_to_clock_ticks` |
| Ticks.DisplayTicksDifferBelowZero | creator.py:146-152 | for a negative duration the two forms differ: -0.0005 us at 10 ns gives 0 in `__str__` and -1 in the snippet |
| Ticks.TicksExamples | creator.py:242-245 | sub-tick durations quantise to 0; 10, 30, 500 and 3.5 us at 10 ns are 1000, 3000, 50000 and 350 ticks |
| HexLiteral.ByteList | creator.py:259-270 | one digit pair per 16-bit word in word order: (upper, lower) for `'b'`, (lower, upper) for anything else |
| HexLiteral.IntToHexStr | creator.py:247-274 | `_int_to_hex_str` returns `x"` + the padded digits, arranged by endianness, + `"` (the same text as creator/creator.py) |
| HexLiteral.LiteralShape | creator/creator.py:203-224 | the literal is `x"`, then 4·k digits with k = ceil(len(hex(num))/4) ≥ 1, then `"` |
| HexLiteral.BigEndianBody | creator.py:253-273 | big-endian, the body read as hexadecimal is num; it ends with hex(num), and the padding before it is only zeros |
| HexLiteral.LittleEndianWord | creator.py:263-270 | any other endianness keeps the word order and exchanges the two bytes inside each word |
| HexLiteral.SwapWordsAt | creator/creator.py:213-220 | digit k of the swapped body is the other byte's digit of the same word |
| HexLiteral.SwapWordsInvolution | creator/creator.py:213-223 | swapping the bytes twice gives the digits back |
| HexLiteral.LittleEndianUnswap | creator.py:263-270 | swapping the bytes of a little-endian body gives the big-endian body |
| HexLiteral.ValidIffNonNegative | creator.py:253-258 | the literal is a well-formed hexadecimal literal exactly when num ≥ 0, because `hex()` of a negative number has a `-` |
| HexLiteral.LiteralExamples | creator.py:247-274 | 0 gives `x"0000"`; 0x1234 gives `x"1234"` by default and `x"3412"` with `'l'`; 0x12345 gives `x"00012345"` |
| Creator.ToPulsesString | creator.py:189-200 | the line is `PULSES = "`, then each pulse's `w,p,m,f` in order, separated by vertical bars, then `"` |
| Creator.PulsesStringSeparators | creator.py:189-200 | there are exactly len(pulses)-1 vertical bars, and the value is `""` for no pulses |
| Creator.PulsesStringParses | creator.py:189-200 | the header parser reads the PULSES value back as the same number of pulses with the same field texts, in order |
| Creator.EncodeSlot | creator.py:231-238 | one slot: the width ticks, PRI minus pre-pulse minus width ticks, `int(pol_mode)` and `int(frequency)`, the last little-endian |
| Creator.EncodeSlots | creator.py:229-238 | the slots of all pulses, in pulse order |
| Creator.ToVhdlSnippet | creator.py:202-240 | the snippet's literals: counts as they are, the four durations in ticks, then the pulse slots |
| Creator.OffsetLiteralValid | creator.py:231-233 | the PRI-offset literal is well formed exactly when the PRI ticks cover the pre-pulse plus the width ticks |
| Creator.OffsetNonNegative | creator.py:231-233 | a PRI of at least the pre-pulse plus the width, in microseconds, never gives a negative offset despite truncation |
| Creator.SlotEncoding | creator.py:234-238 | width, offset and mode are well-formed big-endian literals that read back as their tick counts; the frequency is well formed and its byte-swapped body reads back as the frequency |
| Creator.DisplayColumn | creator.py:140-152 | the global table `__str__` prints has six rows: num_pulses, num_repeats, pri_pulse_width, pre_pulse, x_amp_delay, l_amp_delay |
| Creator.DisplayMatchesSnippet | creator.py:140-152 | for non-negative durations the table `__str__` prints has the same global-register literals as the snippet |
| Creator.ExampleSnippet | creator.py:209-238 | two pulses of 10 us width and 500 us PRI after a 30 us pre-pulse give offset `x"b3b0"` (46000 ticks) and frequency 8500 as `x"3421"` |
| Creator.ExampleShortPri | creator.py:231-236 | a PRI shorter than pre-pulse plus width gives an ill-formed offset literal |
| CreatorV1.TcuParams.constructor | creator/creator.py:107-115 | the attributes are the arguments (defaults 10, 1, 1, 50, 30, 3.5, 1.0) with an empty pulse list |
| CreatorV1.TcuParams.ToPulsesString | creator/creator.py:157-168 | the same PULSES line as the current revision, for the object's pulses |
| CreatorV1.TcuParams.EncodeSlot | creator/creator.py:190-193 | one slot: width ticks, raw PRI ticks, `int(pol_mode)`, and `int(frequency)` little-endian |
| CreatorV1.TcuParams.EncodeSlots | creator/creator.py:188-193 | the slots of all pulses, in pulse order |
| CreatorV1.TcuParams.ToVhdlSnippet | creator/creator.py:170-195 | the snippet's literals: counts, four durations as `int(x*1000 // clk)` ticks, then the slots |
| CreatorV1.PriFieldRevisions | creator/creator.py:190-193 | the revisions differ only in the PRI field: the earlier one's field is the later one's offset plus pre-pulse and width ticks |
| CreatorV1.SlotEncodingV1 | creator/creator.py:190-193 | mode and frequency are the truncated values; a non-negative PRI field is well formed; only the frequency is byte-swapped |
| CreatorV1.DefaultSnippet | creator/creator.py:176-181 | with the default arguments the global literals are `x"0001"`, `x"0001"`, `x"1388"`, `x"0bb8"`, `x"015e"`, `x"0064"` and there are no slots |
| HeaderParser.HeaderFileParser.constructor | parser.py:9-22 | the section has exactly the ten keys, each `0` except PULSES, which is `""`; so every key `get_tcu_params` reads is present |
| HeaderParser.FreshParserParams | parser.py:73-102 | on a fresh section `get_tcu_params` gives zero pulses, zero repeats and every value `0` |
| HeaderParser.HeaderFileParser.ExtractParam | parser.py:104-116 | as intended: a present key gives its value as interpolation reads it, which is the stored text when it has no `%`; a missing key, or a value interpolation rejects, is the error naming that key, which stands for `exit(65)` |
| HeaderParser.ExitStatus | parser.py:112-115 | the intended exit status is 65 exactly for a parameter that cannot be read, missing or rejected by interpolation (controller.py:12 documents 65 as a missing parameter) |
| HeaderParser.ExtractAsWritten | parser.py:104-116 | as written: it succeeds exactly when the intended read does, with the same value; whenever the read raises, the handler raises AttributeError on `self.file_name`, so `exit(65)` is never reached |
| HeaderParser.FailedReadAsWritten | parser.py:104-116 | for any parameter that cannot be read, the handler as written raises AttributeError (status 1, no key logged), since `__init__` (parser.py:9-24) never sets `file_name`; the intended result names the key and gives status 65 |
| HeaderParser.PlainValueRead | parser.py:111 | a stored value without `%` is read back unchanged |
| HeaderParser.NoMissingParam | parser.py:13-22 | while every key `get_tcu_params` reads is present, as the constructor and `set_tcu_params` keep it, reading never fails for a missing key |
| HeaderParser.WrittenHasReadKeys | parser.py:153-167 | after `set_tcu_params` every key `get_tcu_params` reads is in the section, whatever it held before |
| HeaderParser.PercentValueAsWritten | parser.py:110-115 | the header line `NUM_PRIS = 5%`: interpolation rejects the read, and the handler as written raises AttributeError |
| HeaderParser.PercentValueIntended | parser.py:110-115 | as intended the same header reads PULSES and then ends with the `exit(65)` for NUM_PRIS, an InterpolationSyntaxError |
| HeaderParser.HeaderFileParser.GetTcuParams | parser.py:52-102 | the result of reading the section through interpolation: keys in the source's order, the first failure ending the reading |
| HeaderParser.HeaderFileParser.ReadPulses | parser.py:94-101 | the pulse loop gives the first four comma fields of each entry in order, or fails on the first entry with fewer than four |
| HeaderParser.NumPulsesCount | parser.py:75-80 | `num_pulses` is one more than the number of vertical bars once the quotes are removed, and 0 (not 1) for an empty value |
| HeaderParser.NumRepeatsOf | parser.py:81-85 | `num_repeats` is the floor of NUM_PRIS, as read, over the pulse count, and 0 when there are no pulses |
| HeaderParser.MissingParamIsMissing | parser.py:104-116 | a missing-key failure names one of the ten keys, and that key really is absent |
| HeaderParser.ParsePulsesErrorKind | parser.py:95-100 | the pulse loop fails only on a malformed entry |
| HeaderParser.ParseEntry | parser.py:96-100 | an entry whose fields contain no comma splits back into those fields, in order |
| HeaderParser.HeaderFileParser.WritePulses | parser.py:153-158 | PULSES becomes `"` + the `w,p,m,f` entries separated by vertical bars + `"`; no other key changes |
| HeaderParser.HeaderFileParser.SetTcuParams | parser.py:131-167 | the ten keys are overwritten, NUM_PRIS with `str(num_pulses * num_repeats)`; other keys are kept, and every key `get_tcu_params` reads is present afterwards |
| HeaderParser.PulsesValueSeparators | parser.py:153-158 | the written value has one vertical bar fewer than there are pulses, and is `""` for none |
| HeaderParser.PulsesRoundTrip | parser.py:153-158 | parsing the written PULSES value gives the entries and then the pulses back, in order, when no field contains a comma, a vertical bar or a double quote |
| HeaderParser.WrittenReads | parser.py:159-167 | when no text written contains `%`, every key `set_tcu_params` wrote reads back as the text written |
| HeaderParser.WriteReadRoundTrip | parser.py:159-167 | when `num_pulses` equals the number of pulses and is positive, and no text contains `%`, writing then reading gives back the count, `num_repeats`, every value and the pulses |
| Interpolation.PlainValue | parser.py:111 | a value without `%` reads as it is stored |
| Interpolation.PlainPrefix | parser.py:111 | text before the first `%` is kept as it is, ahead of what the rest reads as |
| Interpolation.EscapedPercent | parser.py:111 | `%%` reads as one `%` |
| Interpolation.EscapeRoundTrip | parser.py:111 | text stored with every `%` doubled reads back as the original text, whatever it contains |
| Interpolation.LonePercent | parser.py:111 | a `%` followed by neither `%` nor `(`, or ending the value, is an InterpolationSyntaxError |
| Interpolation.MissingReference | parser.py:111 | `%(name)s` for a key the section lacks is an InterpolationMissingOptionError naming that key |
| Interpolation.PlainReference | parser.py:111 | `%(name)s` for a key whose value has no `%` is replaced by that value |
| Interpolation.NestedFailure | parser.py:111 | a reference to a value that fails one level deeper fails with the same error |
| Interpolation.SelfReference | parser.py:111 | a key whose value refers to itself cannot be read: an InterpolationDepthError |
| Numerals.ParseIntegerRoundTrip | parser.py:159 | `eval` of the `str` of an integer gives it back, negative or not |
| Controller.Controller.constructor | controller.py:42-50 | the module-level registers start as empty strings and no pulses |
| Controller.PadPris | controller.py:121-126 | every pulse's PRI of length 8 gains `\x00\x00`; the other fields and the order are kept |
| Controller.Controller.ParseHeader | controller.py:102-126 | the registers take the escaped values, with num_repeats, pri_pulse_width and each PRI widened from 2 to 4 bytes; status and instruction are unchanged |
| Controller.Pad32Widens | controller.py:106-109 | a length-8 value gets two zero bytes appended (length 16, the original as prefix); other lengths are kept; 2 escaped bytes become 4 |
| Controller.PaddedPulseSized | controller.py:121-126 | after padding, a pulse whose PRI had 2 or 4 bytes has the slot widths 2, 4, 2, 2 |
| Controller.PaddedRegistersSized | controller.py:31-39 | after the padding of controller.py:104-119, each scalar register value has its register's width: 2 bytes, or 4 for num_repeats and pri_pulse_width |
| Controller.Controller.WriteRegisters | controller.py:166-195 | the writes, in order: the pulse block (each pulse's width, PRI, mode, frequency concatenated in list order) and then the six other registers |
| Controller.PulseBlockLayout | controller.py:172-174 | the block has 10 bytes per pulse, pulse i at bytes 10i .. 10i+9; it fits the 0x140-byte register exactly when there are at most 32 pulses |
| Controller.StripLines | controller.py:205-206 | every line left-stripped, in place |
| Controller.AppendWords | controller.py:212-213 | the line's words appended in order |
| Controller.GatherWords | controller.py:209-213 | the words of every line, split on single spaces, flattened in order |
| Controller.ReadDataArray | controller.py:203-213 | drop the first and the last two lines, left-strip, split on spaces, flatten |
| Controller.OdLinesRoundTrip | controller.py:203-204 | splitting an `od` text at CR LF and dropping its first and last two lines leaves exactly the data lines |
| Controller.OdWordsRoundTrip | controller.py:203-213 | the words of indented, space-separated hexadecimal data lines come back in order |
| Controller.DecodePulseAt | controller.py:219-231 | one pulse from words 5i .. 5i+4, with an IndexError or SyntaxError as the error value |
| Controller.VerifyRegisters | controller.py:217-231 | the first n pulses decoded in order; the first failure is the result |
| Controller.DecodeWindow | controller.py:219-229 | pulse i depends only on its five words |
| Controller.TwoWordValue | controller.py:222-224 | the two PRI words read together are upper·2^16 + lower |
| Controller.SwapBytesWord | controller.py:229-231 | on a 4-digit word the readback's swap is the encoder's byte swap, and it undoes that swap |
| Controller.DecodeSlotWords | controller.py:219-231 | the five words of an encoded slot decode to its width and PRI field times the clock period, its mode, and its frequency |
| Controller.ReadbackRoundTrip | controller.py:203-231 | when the `od` text shows the words of encoded slots, with any line breaks, every pulse decodes to what was encoded (an idealised register image; see Left out) |
| Controller.DecodeAtErrors | controller.py:219-231 | a pulse whose words run past the end fails; an index error names an index past the end |
| Controller.ReadbackErrors | controller.py:217-231 | too few words for the requested pulses makes decoding fail; an index error names an index past the end |
| Controller.OdView | controller.py:199 | the `od -x` view of 2n escaped bytes is n words, each four hexadecimal digits |
| Controller.SlotView | controller.py:172-174 | a written slot shows as five words: width, the PRI's two words, mode, frequency |
| Controller.DecodeView | controller.py:219-231 | any five 4-digit words decode to the width, the PRI words as upper·2^16 + lower, the mode and the byte-swapped frequency, each scaled as the source does |
| Controller.FrequencyWord | controller.py:228-230 | swapping the bytes of the word shown for a 2-byte value gives its bytes in register order |
| Controller.DecodeSlotView | controller.py:219-231 | the five words of one written slot decode to that slot's readback |
| Controller.BlockViewAt | controller.py:172-174 | words 5i .. 5i+4 of the written pulse block are the words of slot i |
| Controller.RegisterReadback | controller.py:172-231 | the block `write_registers` builds, shown by `od -x`, decodes to the readback of every written slot, in order |
| Controller.WrittenRegisterRoundTrip | controller.py:172-231 | the same through the `od` text, with any line breaks: `verify_registers` reads back every slot `write_registers` wrote |
| Controller.Pad32Prepended | controller.py:121-126 | the commented-out padding: two zero bytes before a 2-byte value, other lengths kept |
| Controller.AppendedPriReadback | controller.py:121-126 | as written, a 2-byte PRI padded after its bytes reads back as its word's value times 2^16 (without the clock) |
| Controller.AppendedPriExample | controller.py:222-224 | a PRI of one tick, bytes `\x01\x00`, reads back as 65536 ticks |
| Controller.PrependedPriReadback | controller.py:121-126 | with the zero bytes before it, a 2-byte PRI reads back as its word's value, and every other field is as before |

## Left out

- Printing, logging, SSH to the board (`borph.RHINO`, `_action`), file reading and writing, and argparse are left out. Every `_action` send in `write_registers` is commented out (controller.py:177-195), so as written it only logs the `echo` commands; `WriteRegisters` returns the writes those commands name. `sys.exit(0)` at controller.py:370 ends the script before `verify_registers`, so that code is unreachable as written; `VerifyRegisters` models it with the `od` output text as a parameter.
- `ReadbackRoundTrip` assumes an idealised register image (`SlotWords`): the PRI field as an upper and a lower 16-bit word of one 32-bit value, each word in the order the readback decodes it. Neither write path produces it. creator.py:236 writes a PRI below 2^16 as a single word, and `parse_header` appends the zero word after it. The image the controller does write is covered by `RegisterReadback` and `WrittenRegisterRoundTrip`.
- `OdView`: `od -x` is taken to run on a little-endian host, so every word shows the second byte first. Other hosts are not modelled.
- The clock period is a positive integer (`Ticks.Period`). creator/creator.py:107 accepts any value, and the GUI's clock spin box (creator_gui.py:117-119) sets only a maximum and holds a float. A period of 0 raises ZeroDivisionError in the source; zero, negative and fractional periods are not modelled.
- Python floats are exact reals. IEEE-754 rounding of `x * 1000` and of the division is not modelled.
- `eval` is modelled only where the model parses. NUM_PRIS is parsed as a decimal integer literal; any other Python expression is a `BadInteger` error. The readback words are parsed as `0x` numerals. The other header values and the pulse fields stay as the text that `eval` would receive, so errors from them are not modelled.
- `str` on a float is a parameter (`show`) of the creators' `to_pulses_string`. The pulse fields are reals, so one `show` is used for all four fields. Python's `str` prints an integer and a float differently (`4` and `4.0`), and the model cannot tell which a field held. `set_tcu_params` receives the values already written as text.
- `get_tcu_params` on a parser without a `PulseParameters` section is left out. The constructor always creates the section, and reading a file only adds to it.
- `TCUParams.get_hex_params` is not part of this model. Its escaped strings are the input `HexParams` of `ParseHeader`.
- `CLK_PERIOD_NS` is commented out in controller.py, so it is a parameter.
- `range(num_pulses)` is applied to a string in controller.py. It is modelled as the intended pulse count, a parameter.
- The PRF computation is left out: it is floating division, and it refers to an undefined `pri`.
- Readback of registers other than the pulse register is left out; it is the same transport.
- The later writes to `pulse['pri']` in `parse_header` are modelled on values. `PadPris` returns the new pulse list. Aliasing of the pulse dictionaries shared with the parser is not captured.
- The GUI classes (`Creator`, `ControllerGUI`) and the shifted field assignments of the Qt creator are left out.
- `TCUParams.__init__` of creator.py, which takes its attributes from a header file, is left out: the parser model keeps those values as text, not as numbers.
- The table of the earlier revision's `__str__` is `Creator.DisplayColumn` of `CreatorV1.TcuParams.State()`. `PulseParameters.__str__` only prints.
- `HexLiteral.SwapWords` keeps a tail shorter than one word unchanged. The encoder never produces such a tail, because its digits are padded to whole words.
- `Creator.PulsesStringParses`, `HeaderParser.PulsesRoundTrip`: only hold when no value text contains `,`, `|` or `"`. With such text the round trip fails in the source as well.
- `HeaderFileParser.SetTcuParams`, `HeaderFileParser.WritePulses`: these write and append raw text. configparser's check on `set`, which raises ValueError for a value with a malformed `%`, is not modelled. Nor is the interpolated read-back that `PULSES +=` does. Reading is modelled: `HeaderFileParser.ExtractParam`, `ExtractAsWritten` and `HeaderFileParser.GetTcuParams` interpolate every value they read.
- `WriteReadRoundTrip`: requires that no written text contains `%`. With a `%` the source's round trip fails: `set` raises ValueError, or `%%` reads back as `%`.
- `Interpolation.Interpolate`: only the section's own keys are looked up. The `DEFAULT` section (empty here) and the `vars` argument of `get` are not modelled.

## Findings

| source | as written | input that shows it | evidently intended | confidence | as-written member | corrected member |
|---|---|---|---|---|---|---|
| parser.py:112-115 | the handler formats its message with `self.file_name`, which `HeaderFileParser.__init__` (parser.py:9-24) never sets, so it raises AttributeError and the program ends with status 1, without logging the key. Every key is always present (`NoMissingParam`), so the handler is reached only when interpolation rejects a value | a header with the line `NUM_PRIS = 5%`: reading it raises InterpolationSyntaxError, which the handler catches | log the parameter and end with `exit(65)` | high, not executed | HeaderParser.PercentValueAsWritten | HeaderParser.PercentValueIntended |
| controller.py:121-126 | a 2-byte PRI gets its zero bytes appended, while controller.py:222-224 reads the PRI's first word as the upper half | a PRI of one tick, bytes `\x01\x00`; it reads back as 65536 ticks (`AppendedPriExample`) | zero bytes before the value (the commented-out line 125), or a decoder that reads the lower word first | low (the HDL's word order is unknown), not executed | Controller.AppendedPriReadback | Controller.PrependedPriReadback |

/** The register side of controller.py: the escaped byte strings the TCU registers are
    written with (`parse_header`, `write_registers`) and the decoding of the `od -x`
    readback of the pulse register (`verify_registers`). The module-level globals of the
    script are the fields of a `Controller` object. */
module Controller {
  import opened Results
  import opened Text
  import opened Numerals
  import opened HexLiteral
  import opened Ticks
  import Creator

  // Register widths in bytes. The status and instruction registers (two bytes each)
  // are never written by the script.
  const NumPulsesBytes: nat := 2
  const NumRepeatsBytes: nat := 4
  const XAmpDelayBytes: nat := 2
  const LAmpDelayBytes: nat := 2
  const PriPulseWidthBytes: nat := 4
  const PulsesBytes: nat := 0x140
  const PrePulseBytes: nat := 2

  /** The largest pulse count the experiment creator accepts. */
  const MaxPulses: nat := 32

  /** A pulse slot: width (2 bytes), PRI (4), mode (2) and frequency (2). */
  const SlotBytes: nat := 10

  /** The k-th group of s is one byte written `\xHH`, as `echo -e` reads it. */
  predicate EscapedByteAt(s: string, k: nat)
  {
    4 * k + 4 <= |s| && s[4 * k] == '\\' && s[4 * k + 1] == 'x'
    && IsHexDigit(s[4 * k + 2]) && IsHexDigit(s[4 * k + 3])
  }

  /** s is exactly n escaped bytes. */
  predicate Escaped(s: string, n: nat)
  {
    |s| == 4 * n && forall k :: 0 <= k < n ==> EscapedByteAt(s, k)
  }

  /** Two zero bytes, escaped. */
  const ZeroWord: string := "\\x00\\x00"

  /** A 2-byte value (8 escaped characters) followed by two zero bytes; anything else as
      it is. */
  function Pad32(s: string): string
  {
    if |s| == 8 then s + ZeroWord else s
  }

  /** One pulse of the escaped parameters the header yields. */
  datatype HexPulse = HexPulse(pulseWidth: string, pri: string, polMode: string, frequency: string)

  /** The escaped parameters `parse_header` receives. */
  datatype HexParams = HexParams(
    numPulses: string,
    numRepeats: string,
    xAmpDelay: string,
    lAmpDelay: string,
    priPulseWidth: string,
    prePulse: string,
    pulses: seq<HexPulse>)

  function PadPri(p: HexPulse): HexPulse
  {
    p.(pri := Pad32(p.pri))
  }

  /** One pulse's bytes in the pulse register: width, PRI, mode, frequency. */
  function SlotString(p: HexPulse): string
  {
    p.pulseWidth + p.pri + p.polMode + p.frequency
  }

  /** The pulse register's contents: the slot strings, in pulse order. */
  function PulseBlock(ps: seq<HexPulse>): string
  {
    Flatten(seq(|ps|, i requires 0 <= i < |ps| => SlotString(ps[i])))
  }

  /** The loop of `parse_header` that widens every two-byte PRI to four bytes. */
  method PadPris(ps: seq<HexPulse>) returns (padded: seq<HexPulse>)
    ensures |padded| == |ps|
    ensures forall i :: 0 <= i < |ps| ==> padded[i] == PadPri(ps[i])
  {
    padded := ps;
    for index := 0 to |padded|
      invariant |padded| == |ps|
      invariant forall j :: 0 <= j < index ==> padded[j] == PadPri(ps[j])
      invariant forall j :: index <= j < |padded| ==> padded[j] == ps[j]
    {
      var pulse := padded[index];
      if |pulse.pri| == 8 {
        padded := padded[index := pulse.(pri := pulse.pri + ZeroWord)];
      }
    }
  }

  /** A register and the escaped bytes written to it. */
  datatype RegisterWrite = RegisterWrite(register: string, value: string)

  class Controller {
    var numPulses: string
    var numRepeats: string
    var xAmpDelay: string
    var lAmpDelay: string
    var priPulseWidth: string
    var pulses: seq<HexPulse>
    var status: string
    var instruction: string
    var prePulse: string

    /** The globals as the script starts: empty strings and no pulses. */
    constructor ()
      ensures numPulses == "" && numRepeats == "" && xAmpDelay == "" && lAmpDelay == ""
      ensures priPulseWidth == "" && pulses == [] && status == "" && instruction == ""
      ensures prePulse == ""
    {
      numPulses, numRepeats, xAmpDelay, lAmpDelay := "", "", "", "";
      priPulseWidth, pulses, status, instruction, prePulse := "", [], "", "", "";
    }

    /** `parse_header` from the escaped parameters: the 4-byte registers and every pulse's
        PRI widened from two bytes to four. */
    method ParseHeader(hex: HexParams)
      modifies this
      ensures numPulses == hex.numPulses && numRepeats == Pad32(hex.numRepeats)
      ensures xAmpDelay == hex.xAmpDelay && lAmpDelay == hex.lAmpDelay
      ensures priPulseWidth == Pad32(hex.priPulseWidth) && prePulse == hex.prePulse
      ensures |pulses| == |hex.pulses|
      ensures forall i :: 0 <= i < |pulses| ==> pulses[i] == PadPri(hex.pulses[i])
      ensures status == old(status) && instruction == old(instruction)
    {
      numPulses := hex.numPulses;
      numRepeats := hex.numRepeats;
      if |numRepeats| == 8 {
        numRepeats := numRepeats + ZeroWord;
      }
      xAmpDelay := hex.xAmpDelay;
      lAmpDelay := hex.lAmpDelay;
      priPulseWidth := hex.priPulseWidth;
      if |priPulseWidth| == 8 {
        priPulseWidth := priPulseWidth + ZeroWord;
      }
      pulses := PadPris(hex.pulses);
      prePulse := hex.prePulse;
    }

    /** The register writes of `write_registers`, in the order it issues them. */
    method WriteRegisters() returns (writes: seq<RegisterWrite>)
      ensures writes == [RegisterWrite("pulses", PulseBlock(pulses)),
                         RegisterWrite("num_repeats", numRepeats),
                         RegisterWrite("num_pulses", numPulses),
                         RegisterWrite("x_amp_delay", xAmpDelay),
                         RegisterWrite("l_amp_delay", lAmpDelay),
                         RegisterWrite("pri_pulse_width", priPulseWidth),
                         RegisterWrite("pre_pulse", prePulse)]
    {
      var pulseParamStr := "";
      for i := 0 to |pulses|
        invariant pulseParamStr == PulseBlock(pulses[..i])
      {
        PulseBlockSnoc(pulses, i);
        var pulse := pulses[i];
        pulseParamStr := pulseParamStr + pulse.pulseWidth + pulse.pri + pulse.polMode + pulse.frequency;
      }
      assert pulses[..|pulses|] == pulses;
      writes := [RegisterWrite("pulses", pulseParamStr),
                 RegisterWrite("num_repeats", numRepeats),
                 RegisterWrite("num_pulses", numPulses),
                 RegisterWrite("x_amp_delay", xAmpDelay),
                 RegisterWrite("l_amp_delay", lAmpDelay),
                 RegisterWrite("pri_pulse_width", priPulseWidth),
                 RegisterWrite("pre_pulse", prePulse)];
    }
  }

  // ---------------------------------------------------------------------------
  // Readback of the pulse register

  /** Why decoding the readback stops: a word index past the end of the data (an
      IndexError), or a word that is not a hexadecimal numeral (a SyntaxError in `eval`). */
  datatype ReadError = IndexOutOfRange(index: nat) | BadHex(text: string)

  /** A pulse as read back: width and PRI offset in nanoseconds, mode and frequency. */
  datatype Readback = Readback(pulseWidthNs: int, priOffsetNs: int, mode: int, frequency: int)

  /** The data lines of the `od` output: the first line and the last two are dropped. */
  function OdLines(raw: string): seq<string>
  {
    var a := Split(raw, "\r\n");
    if |a| >= 3 then a[1..|a| - 2] else []
  }

  /** The words of one data line once its indentation is stripped. */
  function LineWords(line: string): seq<string>
  {
    Split(LStrip(line), " ")
  }

  /** `line.split(' ')` */
  function SpaceWords(line: string): seq<string>
  {
    Split(line, " ")
  }

  /** The space-separated words of every data line, indentation stripped, in order. */
  function OdWords(raw: string): seq<string>
  {
    Flatten(Map(SpaceWords, Map(LStrip, OdLines(raw))))
  }

  /** `freq[2:4] + freq[0:2]`: the two bytes of a word exchanged. */
  function SwapBytes(w: string): string
  {
    PySlice(w, 2, 4) + PySlice(w, 0, 2)
  }

  /** The pulse whose words start at index b, read and evaluated in the order the script
      does. */
  function DecodeAt(words: seq<string>, b: nat, clk: Period): Result<Readback, ReadError>
  {
    if b >= |words| then Err(IndexOutOfRange(b))
    else if EvalHex(words[b]).None? then Err(BadHex(words[b]))
    else if b + 1 >= |words| then Err(IndexOutOfRange(b + 1))
    else if b + 2 >= |words| then Err(IndexOutOfRange(b + 2))
    else if EvalHex(words[b + 1] + words[b + 2]).None? then Err(BadHex(words[b + 1] + words[b + 2]))
    else if b + 3 >= |words| then Err(IndexOutOfRange(b + 3))
    else if EvalHex(words[b + 3]).None? then Err(BadHex(words[b + 3]))
    else if b + 4 >= |words| then Err(IndexOutOfRange(b + 4))
    else if EvalHex(SwapBytes(words[b + 4])).None? then Err(BadHex(SwapBytes(words[b + 4])))
    else
      Ok(Readback(EvalHex(words[b]).value * clk, EvalHex(words[b + 1] + words[b + 2]).value * clk,
                  EvalHex(words[b + 3]).value, EvalHex(SwapBytes(words[b + 4])).value))
  }

  /** Pulse i, from words 5i .. 5i+4. */
  function DecodePulse(words: seq<string>, i: nat, clk: Period): Result<Readback, ReadError>
  {
    DecodeAt(words, 5 * i, clk)
  }

  /** The loop body of the decoding as a step function: pulse i. */
  function PulseDecoder(words: seq<string>, clk: Period): nat -> Result<Readback, ReadError>
  {
    (i: nat) => DecodePulse(words, i, clk)
  }

  /** The first n pulses, in order; the first failure is the error. */
  function DecodePulses(words: seq<string>, n: nat, clk: Period): Result<seq<Readback>, ReadError>
  {
    Collect(PulseDecoder(words, clk), n)
  }

  /** The straight-line body of the decoding loop. */
  method DecodePulseAt(words: seq<string>, i: nat, clk: Period) returns (r: Result<Readback, ReadError>)
    ensures r == DecodePulse(words, i, clk)
  {
    var b := 5 * i;
    if b >= |words| {
      return Err(IndexOutOfRange(b));
    }
    var pulseWidthText := words[b];
    var pulseWidth := EvalHex(pulseWidthText);
    if pulseWidth.None? {
      return Err(BadHex(pulseWidthText));
    }
    if b + 1 >= |words| {
      return Err(IndexOutOfRange(b + 1));
    }
    var priUpper := words[b + 1];
    if b + 2 >= |words| {
      return Err(IndexOutOfRange(b + 2));
    }
    var priLower := words[b + 2];
    var priOffset := EvalHex(priUpper + priLower);
    if priOffset.None? {
      return Err(BadHex(priUpper + priLower));
    }
    if b + 3 >= |words| {
      return Err(IndexOutOfRange(b + 3));
    }
    var modeText := words[b + 3];
    var mode := EvalHex(modeText);
    if mode.None? {
      return Err(BadHex(modeText));
    }
    if b + 4 >= |words| {
      return Err(IndexOutOfRange(b + 4));
    }
    var freqText := words[b + 4];
    freqText := PySlice(freqText, 2, 4) + PySlice(freqText, 0, 2);
    var freq := EvalHex(freqText);
    if freq.None? {
      return Err(BadHex(freqText));
    }
    r := Ok(Readback(pulseWidth.value * clk, priOffset.value * clk, mode.value, freq.value));
  }

  /** `lstrip` applied to every line, in place. */
  method StripLines(lines: seq<string>) returns (stripped: seq<string>)
    ensures stripped == Map(LStrip, lines)
  {
    stripped := lines;
    for i := 0 to |stripped|
      invariant |stripped| == |lines|
      invariant forall j :: 0 <= j < i ==> stripped[j] == LStrip(lines[j])
      invariant forall j :: i <= j < |stripped| ==> stripped[j] == lines[j]
    {
      stripped := stripped[i := LStrip(stripped[i])];
    }
    MapPointwise(LStrip, lines, stripped);
  }

  /** The inner loop: every word of a line appended, in order. */
  method AppendWords(words: seq<string>, line: seq<string>) returns (r: seq<string>)
    ensures r == words + line
  {
    r := words;
    for k := 0 to |line|
      invariant r == words + line[..k]
    {
      r := r + [line[k]];
    }
    assert line[..|line|] == line;
  }

  /** The words of the data lines, gathered line by line as the script's nested loops do. */
  method ReadDataArray(raw: string) returns (words: seq<string>)
    ensures words == OdWords(raw)
  {
    var dataLines := Split(raw, "\r\n");
    if |dataLines| >= 3 {
      dataLines := dataLines[1..|dataLines| - 2];
    } else {
      dataLines := [];
    }
    assert dataLines == OdLines(raw);
    var stripped := StripLines(dataLines);
    words := GatherWords(stripped);
  }

  /** The outer loop: the words of every line appended, line after line. */
  method GatherWords(stripped: seq<string>) returns (words: seq<string>)
    ensures words == Flatten(Map(SpaceWords, stripped))
  {
    words := [];
    for i := 0 to |stripped|
      invariant words == Flatten(Map(SpaceWords, stripped[..i]))
    {
      var lineInArray := Split(stripped[i], " ");
      assert stripped[..i + 1] == stripped[..i] + [stripped[i]];
      MapSnoc(SpaceWords, stripped[..i], stripped[i]);
      FlattenSnoc(Map(SpaceWords, stripped[..i]), lineInArray);
      words := AppendWords(words, lineInArray);
    }
    assert stripped[..|stripped|] == stripped;
  }

  /** `verify_registers` for the pulse register: the data words of the readback, then the
      first `numPulses` pulses decoded from them, with the clock period as a parameter. */
  method VerifyRegisters(raw: string, numPulses: nat, clk: Period)
      returns (r: Result<seq<Readback>, ReadError>)
    ensures r == DecodePulses(OdWords(raw), numPulses, clk)
  {
    var readData := ReadDataArray(raw);
    var decoded: seq<Readback> := [];
    for pulseNumber := 0 to numPulses
      invariant DecodePulses(readData, pulseNumber, clk) == Ok(decoded)
    {
      var pulse := DecodePulseAt(readData, pulseNumber, clk);
      if pulse.Err? {
        CollectErrorExtends(PulseDecoder(readData, clk), pulseNumber + 1, numPulses);
        return Err(pulse.error);
      }
      decoded := decoded + [pulse.value];
    }
    r := Ok(decoded);
  }

  // ---------------------------------------------------------------------------
  // Lemmas: register strings

  lemma PulseBlockSnoc(ps: seq<HexPulse>, i: nat)
    requires i < |ps|
    ensures PulseBlock(ps[..i + 1]) == PulseBlock(ps[..i]) + SlotString(ps[i])
  {
    var xss := seq(i + 1, j requires 0 <= j < i + 1 => SlotString(ps[..i + 1][j]));
    assert xss[..i] == seq(i, j requires 0 <= j < i => SlotString(ps[..i][j]));
  }

  /** A 2-byte value gains two zero bytes after it and becomes a 4-byte value; a 4-byte
      value is left alone. */
  lemma Pad32Widens(s: string)
    ensures |s| == 8 ==> |Pad32(s)| == 16 && Pad32(s)[..8] == s && Pad32(s)[8..] == ZeroWord
    ensures |s| != 8 ==> Pad32(s) == s
    ensures Escaped(s, 2) ==> Escaped(Pad32(s), 4)
    ensures Escaped(s, 4) ==> Pad32(s) == s
  {
    if Escaped(s, 2) {
      var t := Pad32(s);
      assert EscapedByteAt(s, 0) && EscapedByteAt(s, 1);
      assert t == s + ZeroWord;
      assert EscapedByteAt(t, 0) by { assert t[0] == s[0] && t[1] == s[1] && t[2] == s[2] && t[3] == s[3]; }
      assert EscapedByteAt(t, 1) by { assert t[4] == s[4] && t[5] == s[5] && t[6] == s[6] && t[7] == s[7]; }
      assert EscapedByteAt(t, 2) by { assert t[8..12] == "\\x00"; }
      assert EscapedByteAt(t, 3) by { assert t[12..16] == "\\x00"; }
    }
  }

  lemma EscapedConcat(a: string, m: nat, b: string, n: nat)
    requires Escaped(a, m) && Escaped(b, n)
    ensures Escaped(a + b, m + n)
  {
    forall k | 0 <= k < m + n
      ensures EscapedByteAt(a + b, k)
    {
      if k >= m {
        assert EscapedByteAt(b, k - m);
      } else {
        assert EscapedByteAt(a, k);
      }
    }
  }

  /** A pulse whose fields have the slot's widths. */
  predicate SlotSized(p: HexPulse)
  {
    Escaped(p.pulseWidth, 2) && Escaped(p.pri, 4) && Escaped(p.polMode, 2) && Escaped(p.frequency, 2)
  }

  /** `parse_header` gives every pulse the slot widths when its PRI had two or four bytes. */
  lemma PaddedPulseSized(p: HexPulse)
    requires Escaped(p.pulseWidth, 2) && Escaped(p.polMode, 2) && Escaped(p.frequency, 2)
    requires Escaped(p.pri, 2) || Escaped(p.pri, 4)
    ensures SlotSized(PadPri(p))
  {
    Pad32Widens(p.pri);
  }

  /** After `parse_header` every scalar register value has exactly its register's width,
      when the header gave two bytes for each and two or four for the two 4-byte
      registers. */
  lemma PaddedRegistersSized(hex: HexParams)
    requires Escaped(hex.numPulses, 2) && Escaped(hex.xAmpDelay, 2)
    requires Escaped(hex.lAmpDelay, 2) && Escaped(hex.prePulse, 2)
    requires Escaped(hex.numRepeats, 2) || Escaped(hex.numRepeats, 4)
    requires Escaped(hex.priPulseWidth, 2) || Escaped(hex.priPulseWidth, 4)
    ensures Escaped(hex.numPulses, NumPulsesBytes) && Escaped(Pad32(hex.numRepeats), NumRepeatsBytes)
    ensures Escaped(hex.xAmpDelay, XAmpDelayBytes) && Escaped(hex.lAmpDelay, LAmpDelayBytes)
    ensures Escaped(Pad32(hex.priPulseWidth), PriPulseWidthBytes)
    ensures Escaped(hex.prePulse, PrePulseBytes)
  {
    Pad32Widens(hex.numRepeats);
    Pad32Widens(hex.priPulseWidth);
  }

  lemma SlotStringSized(p: HexPulse)
    requires SlotSized(p)
    ensures Escaped(SlotString(p), SlotBytes)
  {
    EscapedConcat(p.pulseWidth, 2, p.pri, 4);
    EscapedConcat(p.pulseWidth + p.pri, 6, p.polMode, 2);
    EscapedConcat(p.pulseWidth + p.pri + p.polMode, 8, p.frequency, 2);
  }

  lemma {:induction false} PulseBlockSized(ps: seq<HexPulse>)
    requires forall j :: 0 <= j < |ps| ==> SlotSized(ps[j])
    ensures Escaped(PulseBlock(ps), SlotBytes * |ps|)
    decreases |ps|
  {
    if ps == [] {
      assert PulseBlock(ps) == [];
    } else {
      var n := |ps| - 1;
      PulseBlockSized(ps[..n]);
      PulseBlockSnoc(ps, n);
      assert ps[..n + 1] == ps;
      SlotStringSized(ps[n]);
      EscapedConcat(PulseBlock(ps[..n]), SlotBytes * n, SlotString(ps[n]), SlotBytes);
    }
  }

  /** The pulse register holds 10 bytes per pulse, pulse i's at bytes 10i .. 10i+9, and the
      block fits the 0x140-byte register exactly when there are at most 32 pulses. */
  lemma PulseBlockLayout(ps: seq<HexPulse>, i: nat)
    requires forall j :: 0 <= j < |ps| ==> SlotSized(ps[j])
    requires i < |ps|
    ensures Escaped(PulseBlock(ps), SlotBytes * |ps|)
    ensures PulseBlock(ps)[4 * SlotBytes * i..4 * SlotBytes * (i + 1)] == SlotString(ps[i])
    ensures SlotBytes * |ps| <= PulsesBytes <==> |ps| <= MaxPulses
  {
    PulseBlockSized(ps);
    var xss := seq(|ps|, j requires 0 <= j < |ps| => SlotString(ps[j]));
    forall j | 0 <= j < |xss|
      ensures |xss[j]| == 40
    {
      SlotStringSized(ps[j]);
    }
    FlattenUniform(xss, 40, i);
  }

  // ---------------------------------------------------------------------------
  // Lemmas: readback

  /** A pulse is decoded from its five words and nothing else. */
  lemma DecodeWindow(words: seq<string>, b: nat, clk: Period)
    requires b + 5 <= |words|
    ensures DecodeAt(words, b, clk) == DecodeAt(words[b..b + 5], 0, clk)
  {
    var w := words[b..b + 5];
    assert words[b] == w[0];
    assert words[b + 1] == w[1];
    assert words[b + 2] == w[2];
    assert words[b + 3] == w[3];
    assert words[b + 4] == w[4];
  }

  /** Two 4-digit words read as one number: the upper word times 2^16 plus the lower. */
  lemma TwoWordValue(upper: string, lower: string)
    requires |upper| == 4 && |lower| == 4 && AllHex(upper) && AllHex(lower)
    ensures AllHex(upper + lower)
    ensures HexValue(upper + lower) == HexValue(upper) * 0x10000 + HexValue(lower)
  {
    HexValueConcat(upper, lower);
    assert Pow16(4) == 0x10000;
  }

  /** On a 4-digit word the readback's byte exchange is the encoder's, and undoes it. */
  lemma SwapBytesWord(w: string)
    requires |w| == 4
    ensures SwapBytes(w) == SwapWords(w)
    ensures SwapBytes(SwapWords(w)) == w
  {
    assert w[4..] == [];
    assert SwapWords(w) == w[2..4] + w[..2];
    assert SwapWords(w)[2..4] + SwapWords(w)[..2] == w;
  }

  /** A 16-bit value as one word of four hexadecimal digits. */
  function Word16(n: nat): string
  {
    Body(n, DefaultEndian)
  }

  lemma Word16Shape(n: nat)
    requires n < 0x10000
    ensures |Word16(n)| == 4 && AllHex(Word16(n)) && HexValue(Word16(n)) == n
  {
    assert Pow16(4) == 0x10000 by {
      assert Pow16(2) == 256;
    }
    NatHexLength(n, 4);
    var len := |NatHex(n)|;
    assert PadCount(len) == 4 - len;
    BigEndianBody(n);
    assert Word16(n) == Zeros(4 - len) + NatHex(n);
  }

  /** A slot whose width, mode and frequency fit 16 bits and whose PRI field fits 32. */
  predicate SlotFits(t: Creator.SlotTicks)
  {
    0 <= t.width < 0x10000 && 0 <= t.priField < 0x1_0000_0000
    && 0 <= t.mode < 0x10000 && 0 <= t.frequency < 0x10000
  }

  /** The five words a slot reads back as: width, PRI field as upper and lower word, mode,
      and the frequency with its bytes swapped. */
  function SlotWords(t: Creator.SlotTicks): seq<string>
    requires SlotFits(t)
  {
    [Word16(t.width), Word16(t.priField / 0x10000), Word16(t.priField % 0x10000),
     Word16(t.mode), Body(t.frequency, LittleEndian)]
  }

  /** These are the words of the creator's literals for the slot: the width, mode and
      frequency words are those literals' bodies, and the two PRI words read together are
      the PRI field. */
  lemma SlotWordsAreLiterals(t: Creator.SlotTicks)
    requires SlotFits(t)
    ensures var w, l := SlotWords(t), Creator.SlotLiteralsOf(t);
      && w[0] == LiteralBody(l.width)
      && w[3] == LiteralBody(l.mode)
      && w[4] == LiteralBody(l.frequency)
      && AllHex(w[1] + w[2]) && HexValue(w[1] + w[2]) == t.priField
  {
    var w := SlotWords(t);
    LiteralBodies(t);
    PriWords(t.priField);
    assert w[1] + w[2] == Word16(t.priField / 0x10000) + Word16(t.priField % 0x10000);
  }

  lemma LiteralBodies(t: Creator.SlotTicks)
    ensures var l := Creator.SlotLiteralsOf(t);
      && LiteralBody(l.width) == Body(t.width, DefaultEndian)
      && LiteralBody(l.mode) == Body(t.mode, DefaultEndian)
      && LiteralBody(l.frequency) == Body(t.frequency, LittleEndian)
  {
    LiteralShape(t.width, DefaultEndian);
    LiteralShape(t.mode, DefaultEndian);
    LiteralShape(t.frequency, LittleEndian);
  }

  lemma PriWords(v: nat)
    requires v < 0x1_0000_0000
    ensures AllHex(Word16(v / 0x10000) + Word16(v % 0x10000))
    ensures HexValue(Word16(v / 0x10000) + Word16(v % 0x10000)) == v
  {
    Word16Shape(v / 0x10000);
    Word16Shape(v % 0x10000);
    TwoWordValue(Word16(v / 0x10000), Word16(v % 0x10000));
  }

  /** What the readback of a slot decodes to: width and PRI field in nanoseconds, mode and
      frequency as written. */
  function Expected(t: Creator.SlotTicks, clk: Period): Readback
  {
    Readback(t.width * clk, t.priField * clk, t.mode, t.frequency)
  }

  lemma DecodeSlotWords(t: Creator.SlotTicks, clk: Period)
    requires SlotFits(t)
    ensures DecodeAt(SlotWords(t), 0, clk) == Ok(Expected(t, clk))
  {
    var w := SlotWords(t);
    Word16Shape(t.width);
    Word16Shape(t.mode);
    Word16Shape(t.frequency);
    PriWords(t.priField);
    SwapBytesWord(Word16(t.frequency));
    assert w[4] == SwapWords(Word16(t.frequency));
    assert EvalHex(w[0]) == Some(t.width);
    assert EvalHex(w[1] + w[2]) == Some(t.priField);
    assert EvalHex(w[3]) == Some(t.mode);
    assert SwapBytes(w[4]) == Word16(t.frequency);
    assert EvalHex(SwapBytes(w[4])) == Some(t.frequency);
  }

  /** The readback words of consecutive slots, in order. */
  function AllSlotWords(ts: seq<Creator.SlotTicks>): seq<string>
    requires forall j :: 0 <= j < |ts| ==> SlotFits(ts[j])
  {
    Flatten(seq(|ts|, j requires 0 <= j < |ts| => SlotWords(ts[j])))
  }

  /** Pulse i of the slots' words decodes to slot i. */
  lemma DecodeSlotAt(ts: seq<Creator.SlotTicks>, i: nat, clk: Period)
    requires forall j :: 0 <= j < |ts| ==> SlotFits(ts[j])
    requires i < |ts|
    ensures DecodePulse(AllSlotWords(ts), i, clk) == Ok(Expected(ts[i], clk))
  {
    var words := AllSlotWords(ts);
    var xss := seq(|ts|, j requires 0 <= j < |ts| => SlotWords(ts[j]));
    FlattenUniform(xss, 5, i);
    DecodeWindow(words, 5 * i, clk);
    DecodeSlotWords(ts[i], clk);
  }

  lemma DecodeAllSlots(ts: seq<Creator.SlotTicks>, clk: Period)
    requires forall j :: 0 <= j < |ts| ==> SlotFits(ts[j])
    ensures var r := DecodePulses(AllSlotWords(ts), |ts|, clk);
      r.Ok? && |r.value| == |ts| && forall j :: 0 <= j < |ts| ==> r.value[j] == Expected(ts[j], clk)
  {
    var words := AllSlotWords(ts);
    var decoded := seq(|ts|, j requires 0 <= j < |ts| => Expected(ts[j], clk));
    forall j | 0 <= j < |ts|
      ensures DecodePulse(words, j, clk) == Ok(decoded[j])
    {
      DecodeSlotAt(ts, j, clk);
    }
    CollectAll(PulseDecoder(words, clk), |ts|, decoded);
    assert decoded[..|ts|] == decoded;
  }

  /** The data lines of an `od` output: each an indentation of spaces and its words
      separated by single spaces. */
  function DataLines(indent: string, lines: seq<seq<string>>): seq<string>
  {
    seq(|lines|, i requires 0 <= i < |lines| => indent + Join(lines[i], " "))
  }

  /** An `od` output: a first line, the data lines and two closing lines, separated by
      CR LF. */
  function OdText(first: string, indent: string, lines: seq<seq<string>>, last1: string, last2: string): string
  {
    Join([first] + DataLines(indent, lines) + [last1, last2], "\r\n")
  }

  /** A data line's words: non-empty hexadecimal numerals. */
  predicate HexLine(line: seq<string>)
  {
    line != [] && forall k :: 0 <= k < |line| ==> line[k] != [] && AllHex(line[k])
  }

  lemma HexNoSpace(w: string, c: char)
    requires AllHex(w) && !IsHexDigit(c)
    ensures c !in w
  {
    forall k | 0 <= k < |w|
      ensures w[k] != c
    {
      assert IsHexDigit(w[k]);
    }
  }

  lemma LineRoundTrip(indent: string, line: seq<string>)
    requires forall i :: 0 <= i < |indent| ==> indent[i] == ' '
    requires HexLine(line)
    ensures LineWords(indent + Join(line, " ")) == line
    ensures '\r' !in indent + Join(line, " ")
  {
    forall k | 0 <= k < |line|
      ensures ' ' !in line[k] && '\r' !in line[k]
    {
      HexNoSpace(line[k], ' ');
      HexNoSpace(line[k], '\r');
    }
    NotInJoin(line, " ", '\r');
    JoinHead(line, " ");
    assert IsHexDigit(line[0][0]);
    LStripIndent(indent, Join(line, " "));
    SplitJoin(line, " ");
  }

  lemma JoinHead(parts: seq<string>, sep: string)
    requires parts != [] && parts[0] != []
    ensures Join(parts, sep) != [] && Join(parts, sep)[0] == parts[0][0]
  {
  }

  /** Splitting an `od` output at CR LF and dropping the first and last two lines leaves
      exactly the data lines. */
  lemma OdLinesRoundTrip(first: string, indent: string, lines: seq<seq<string>>, last1: string, last2: string)
    requires '\r' !in first && '\r' !in last1 && '\r' !in last2
    requires forall i :: 0 <= i < |indent| ==> indent[i] == ' '
    requires forall i :: 0 <= i < |lines| ==> HexLine(lines[i])
    ensures OdLines(OdText(first, indent, lines, last1, last2)) == DataLines(indent, lines)
  {
    var body := DataLines(indent, lines);
    var parts := [first] + body + [last1, last2];
    forall i | 0 <= i < |parts|
      ensures "\r\n"[0] !in parts[i]
    {
      if 1 <= i <= |lines| {
        assert parts[i] == body[i - 1];
        LineRoundTrip(indent, lines[i - 1]);
      }
    }
    SplitJoin(parts, "\r\n");
    assert parts[1..|parts| - 2] == body;
  }

  /** The data words are recovered from the `od` output: indentation is stripped and the
      words of the data lines come back in order. */
  lemma OdWordsRoundTrip(first: string, indent: string, lines: seq<seq<string>>, last1: string, last2: string)
    requires '\r' !in first && '\r' !in last1 && '\r' !in last2
    requires forall i :: 0 <= i < |indent| ==> indent[i] == ' '
    requires forall i :: 0 <= i < |lines| ==> HexLine(lines[i])
    ensures OdWords(OdText(first, indent, lines, last1, last2)) == Flatten(lines)
  {
    var text := OdText(first, indent, lines, last1, last2);
    OdLinesRoundTrip(first, indent, lines, last1, last2);
    DataLineWords(indent, lines);
  }

  lemma DataLineWords(indent: string, lines: seq<seq<string>>)
    requires forall i :: 0 <= i < |indent| ==> indent[i] == ' '
    requires forall i :: 0 <= i < |lines| ==> HexLine(lines[i])
    ensures Map(SpaceWords, Map(LStrip, DataLines(indent, lines))) == lines
  {
    var body := DataLines(indent, lines);
    forall i | 0 <= i < |lines|
      ensures LineWords(body[i]) == lines[i]
    {
      LineRoundTrip(indent, lines[i]);
    }
  }

  /** Reading back the pulse register: when the `od` output shows the words of the slots
      the creator encodes, whatever the line breaks, the pulses decode to their widths and
      PRI fields in nanoseconds and their modes and frequencies as written. */
  lemma ReadbackRoundTrip(ts: seq<Creator.SlotTicks>, clk: Period, first: string, indent: string,
                          lines: seq<seq<string>>, last1: string, last2: string)
    requires forall j :: 0 <= j < |ts| ==> SlotFits(ts[j])
    requires '\r' !in first && '\r' !in last1 && '\r' !in last2
    requires forall i :: 0 <= i < |indent| ==> indent[i] == ' '
    requires forall i :: 0 <= i < |lines| ==> HexLine(lines[i])
    requires Flatten(lines) == AllSlotWords(ts)
    ensures var r := DecodePulses(OdWords(OdText(first, indent, lines, last1, last2)), |ts|, clk);
      r.Ok? && |r.value| == |ts| && forall j :: 0 <= j < |ts| ==> r.value[j] == Expected(ts[j], clk)
  {
    OdWordsRoundTrip(first, indent, lines, last1, last2);
    DecodeAllSlots(ts, clk);
  }

  /** A pulse whose words run past the end fails, and an index error names an index past
      the end of the words. */
  lemma DecodeAtErrors(words: seq<string>, b: nat, clk: Period)
    ensures |words| < b + 5 ==> DecodeAt(words, b, clk).Err?
    ensures var r := DecodeAt(words, b, clk);
      r.Err? && r.error.IndexOutOfRange? ==> r.error.index >= |words|
  {
  }

  /** Too few data words for the requested pulses: the decoding fails; and whenever it
      fails with an index error, the index is past the end of the words. */
  lemma {:induction false} ReadbackErrors(words: seq<string>, n: nat, clk: Period)
    ensures |words| < 5 * n ==> DecodePulses(words, n, clk).Err?
    ensures var r := DecodePulses(words, n, clk);
      r.Err? && r.error.IndexOutOfRange? ==> r.error.index >= |words|
    decreases n
  {
    if n > 0 {
      ReadbackErrors(words, n - 1, clk);
      DecodeAtErrors(words, 5 * (n - 1), clk);
      var prev, last := DecodePulses(words, n - 1, clk), DecodePulse(words, n - 1, clk);
      if prev.Err? {
        assert DecodePulses(words, n, clk) == prev;
      } else if last.Err? {
        assert DecodePulses(words, n, clk) == Err(last.error);
      }
    }
  }

  // ---------------------------------------------------------------------------
  // The written pulse register as `od -x` shows it

  /** The two hexadecimal digits of escaped byte k. */
  function ByteDigits(s: string, k: nat): (d: string)
    requires EscapedByteAt(s, k)
    ensures |d| == 2 && AllHex(d)
  {
    s[4 * k + 2..4 * k + 4]
  }

  /** Word k of an escaped value as `od -x` prints it on a little-endian host: the digits
      of byte 2k+1, then those of byte 2k. */
  function OdWord(s: string, k: nat): (w: string)
    requires EscapedByteAt(s, 2 * k) && EscapedByteAt(s, 2 * k + 1)
    ensures |w| == 4 && AllHex(w)
  {
    ByteDigits(s, 2 * k + 1) + ByteDigits(s, 2 * k)
  }

  /** The words `od -x` prints for a value of 2n escaped bytes, in register order. */
  function OdView(s: string, n: nat): (ws: seq<string>)
    requires Escaped(s, 2 * n)
    ensures |ws| == n && forall k :: 0 <= k < n ==> |ws[k]| == 4 && AllHex(ws[k])
  {
    seq(n, k requires 0 <= k < n => OdWord(s, k))
  }

  /** What the decoding gives for a written slot: the values of the words `od` shows for
      its fields, the PRI's first word taken as the upper half, and the frequency's bytes
      in register order once `freq[2:4] + freq[0:2]` has exchanged them. */
  function SlotReadback(p: HexPulse, clk: Period): Readback
    requires SlotSized(p)
  {
    Readback(HexValue(OdWord(p.pulseWidth, 0)) * clk,
             (HexValue(OdWord(p.pri, 0)) * 0x10000 + HexValue(OdWord(p.pri, 1))) * clk,
             HexValue(OdWord(p.polMode, 0)),
             HexValue(ByteDigits(p.frequency, 0)) * 0x100 + HexValue(ByteDigits(p.frequency, 1)))
  }

  /** Byte j + k of a string whose slice from byte j is t is byte k of t. */
  lemma DigitsInSlice(s: string, j: nat, hi: nat, k: nat)
    requires 4 * j <= hi <= |s|
    requires EscapedByteAt(s[4 * j..hi], k)
    ensures EscapedByteAt(s, j + k)
    ensures ByteDigits(s, j + k) == ByteDigits(s[4 * j..hi], k)
  {
    var t := s[4 * j..hi];
    assert s[4 * (j + k) + 2..4 * (j + k) + 4] == t[4 * k + 2..4 * k + 4];
    assert s[4 * (j + k)] == t[4 * k] && s[4 * (j + k) + 1] == t[4 * k + 1];
    assert s[4 * (j + k) + 2] == t[4 * k + 2] && s[4 * (j + k) + 3] == t[4 * k + 3];
  }

  /** Word k of a field inside a slot: `Word(s, j, k)` is word j + k of s. */
  lemma WordInSlice(s: string, j: nat, hi: nat, k: nat)
    requires 8 * j <= hi <= |s|
    requires EscapedByteAt(s[8 * j..hi], 2 * k) && EscapedByteAt(s[8 * j..hi], 2 * k + 1)
    ensures EscapedByteAt(s, 2 * (j + k)) && EscapedByteAt(s, 2 * (j + k) + 1)
    ensures OdWord(s, j + k) == OdWord(s[8 * j..hi], k)
  {
    DigitsInSlice(s, 2 * j, hi, 2 * k);
    DigitsInSlice(s, 2 * j, hi, 2 * k + 1);
  }

  /** The slot's fields lie at bytes 0-1, 2-5, 6-7 and 8-9. */
  lemma SlotFields(p: HexPulse)
    requires SlotSized(p)
    ensures var s := SlotString(p);
      |s| == 40 && s[..8] == p.pulseWidth && s[8..24] == p.pri
      && s[24..32] == p.polMode && s[32..40] == p.frequency
  {
    var s := SlotString(p);
    assert s == p.pulseWidth + p.pri + p.polMode + p.frequency;
  }

  /** `od` shows a slot as five words: width, the PRI's two words, mode, frequency. */
  lemma SlotView(p: HexPulse)
    requires SlotSized(p)
    ensures Escaped(SlotString(p), 2 * 5)
    ensures OdView(SlotString(p), 5) == [OdWord(p.pulseWidth, 0), OdWord(p.pri, 0),
                                         OdWord(p.pri, 1), OdWord(p.polMode, 0),
                                         OdWord(p.frequency, 0)]
  {
    var s := SlotString(p);
    SlotStringSized(p);
    SlotFields(p);
    assert s[0..8] == p.pulseWidth;
    WordInSlice(s, 0, 8, 0);
    WordInSlice(s, 1, 24, 0);
    WordInSlice(s, 1, 24, 1);
    WordInSlice(s, 3, 32, 0);
    WordInSlice(s, 4, 40, 0);
  }

  /** The five words of a written slot decode to its readback. */
  lemma DecodeSlotView(p: HexPulse, clk: Period)
    requires SlotSized(p)
    ensures Escaped(SlotString(p), 2 * 5)
    ensures DecodeAt(OdView(SlotString(p), 5), 0, clk) == Ok(SlotReadback(p, clk))
  {
    SlotView(p);
    var v := OdView(SlotString(p), 5);
    DecodeView(v, clk);
    FrequencyWord(p.frequency);
  }

  /** Five 4-digit words decode to the width, the two PRI words as upper·2^16 + lower, the
      mode and the byte-swapped frequency. */
  lemma DecodeView(v: seq<string>, clk: Period)
    requires |v| == 5 && forall k :: 0 <= k < 5 ==> |v[k]| == 4 && AllHex(v[k])
    ensures AllHex(SwapBytes(v[4]))
    ensures DecodeAt(v, 0, clk)
      == Ok(Readback(HexValue(v[0]) * clk, (HexValue(v[1]) * 0x10000 + HexValue(v[2])) * clk,
                     HexValue(v[3]), HexValue(SwapBytes(v[4]))))
  {
    TwoWordValue(v[1], v[2]);
    SwapBytesWord(v[4]);
    SwapWordsAllHex(v[4]);
  }

  /** Exchanging the bytes of the word `od` shows for a 2-byte value gives its bytes in
      register order. */
  lemma FrequencyWord(f: string)
    requires Escaped(f, 2)
    ensures AllHex(SwapBytes(OdWord(f, 0)))
    ensures HexValue(SwapBytes(OdWord(f, 0)))
      == HexValue(ByteDigits(f, 0)) * 0x100 + HexValue(ByteDigits(f, 1))
  {
    var w, lo, hi := OdWord(f, 0), ByteDigits(f, 0), ByteDigits(f, 1);
    assert w == hi + lo;
    assert SwapBytes(w) == w[2..4] + w[0..2];
    assert w[2..4] == lo && w[0..2] == hi;
    HexValueConcat(lo, hi);
    assert Pow16(2) == 0x100 by {
      assert Pow16(1) == 16;
    }
  }

  /** Words 5i .. 5i+4 of the block are the words of slot i. */
  lemma BlockViewAt(ps: seq<HexPulse>, i: nat)
    requires forall j :: 0 <= j < |ps| ==> SlotSized(ps[j])
    requires i < |ps|
    ensures Escaped(PulseBlock(ps), 2 * (5 * |ps|))
    ensures Escaped(SlotString(ps[i]), 2 * 5)
    ensures OdView(PulseBlock(ps), 5 * |ps|)[5 * i..5 * i + 5] == OdView(SlotString(ps[i]), 5)
  {
    var block, slot := PulseBlock(ps), SlotString(ps[i]);
    PulseBlockLayout(ps, i);
    SlotStringSized(ps[i]);
    var lo := 40 * i;
    assert 4 * SlotBytes * i == lo && 4 * SlotBytes * (i + 1) == lo + 40;
    assert block[lo..lo + 40] == slot;
    ViewSlice(block, 5 * |ps|, 5 * i, 5, slot);
  }

  lemma SliceEscaped(s: string, n: nat, j: nat, m: nat, t: string)
    requires Escaped(s, 2 * n) && j + m <= n
    requires t == s[8 * j..8 * (j + m)]
    ensures Escaped(t, 2 * m)
  {
    forall k | 0 <= k < 2 * m
      ensures EscapedByteAt(t, k)
    {
      assert EscapedByteAt(s, 2 * j + k);
      assert t[4 * k..4 * k + 4] == s[4 * (2 * j + k)..4 * (2 * j + k) + 4];
    }
  }

  /** The words of a slice of whole words are a slice of the words. */
  lemma ViewSlice(s: string, n: nat, j: nat, m: nat, t: string)
    requires Escaped(s, 2 * n) && j + m <= n
    requires t == s[8 * j..8 * (j + m)]
    ensures Escaped(t, 2 * m)
    ensures OdView(s, n)[j..j + m] == OdView(t, m)
  {
    SliceEscaped(s, n, j, m, t);
    var view, mine := OdView(s, n), OdView(t, m);
    forall k | 0 <= k < m
      ensures view[j + k] == mine[k]
    {
      WordInSlice(s, j, 8 * (j + m), k);
    }
  }

  /** The block `write_registers` sends to the pulse register, shown by `od -x`, decodes
      pulse by pulse to the readbacks of the written slots. */
  lemma RegisterReadback(ps: seq<HexPulse>, clk: Period)
    requires forall j :: 0 <= j < |ps| ==> SlotSized(ps[j])
    ensures Escaped(PulseBlock(ps), 2 * (5 * |ps|))
    ensures var r := DecodePulses(OdView(PulseBlock(ps), 5 * |ps|), |ps|, clk);
      r.Ok? && |r.value| == |ps| && forall j :: 0 <= j < |ps| ==> r.value[j] == SlotReadback(ps[j], clk)
  {
    PulseBlockSized(ps);
    var words := OdView(PulseBlock(ps), 5 * |ps|);
    var decoded := seq(|ps|, j requires 0 <= j < |ps| => SlotReadback(ps[j], clk));
    forall j | 0 <= j < |ps|
      ensures DecodePulse(words, j, clk) == Ok(decoded[j])
    {
      DecodeWrittenSlot(ps, j, clk);
    }
    CollectAll(PulseDecoder(words, clk), |ps|, decoded);
    assert decoded[..|ps|] == decoded;
  }

  lemma DecodeWrittenSlot(ps: seq<HexPulse>, i: nat, clk: Period)
    requires forall j :: 0 <= j < |ps| ==> SlotSized(ps[j])
    requires i < |ps|
    ensures Escaped(PulseBlock(ps), 2 * (5 * |ps|))
    ensures DecodePulse(OdView(PulseBlock(ps), 5 * |ps|), i, clk) == Ok(SlotReadback(ps[i], clk))
  {
    BlockViewAt(ps, i);
    var words := OdView(PulseBlock(ps), 5 * |ps|);
    var window := words[5 * i..5 * i + 5];
    assert window == OdView(SlotString(ps[i]), 5);
    DecodeWindow(words, 5 * i, clk);
    assert DecodePulse(words, i, clk) == DecodeAt(window, 0, clk);
    DecodeSlotView(ps[i], clk);
  }

  /** The same through the `od` text: whatever the line breaks, `verify_registers` reads
      back the slots `write_registers` wrote. */
  lemma WrittenRegisterRoundTrip(ps: seq<HexPulse>, clk: Period, first: string, indent: string,
                                 lines: seq<seq<string>>, last1: string, last2: string)
    requires forall j :: 0 <= j < |ps| ==> SlotSized(ps[j])
    requires '\r' !in first && '\r' !in last1 && '\r' !in last2
    requires forall i :: 0 <= i < |indent| ==> indent[i] == ' '
    requires forall i :: 0 <= i < |lines| ==> HexLine(lines[i])
    requires Escaped(PulseBlock(ps), 2 * (5 * |ps|))
    requires Flatten(lines) == OdView(PulseBlock(ps), 5 * |ps|)
    ensures var r := DecodePulses(OdWords(OdText(first, indent, lines, last1, last2)), |ps|, clk);
      r.Ok? && |r.value| == |ps| && forall j :: 0 <= j < |ps| ==> r.value[j] == SlotReadback(ps[j], clk)
  {
    OdWordsRoundTrip(first, indent, lines, last1, last2);
    RegisterReadback(ps, clk);
  }

  // ---------------------------------------------------------------------------
  // Where the zero bytes of a 2-byte PRI go

  /** A 2-byte value (8 escaped characters) with two zero bytes before it, as the
      commented-out alternative in `parse_header` pads it; anything else as it is. */
  function Pad32Prepended(s: string): (t: string)
    ensures |s| == 8 ==> |t| == 16 && t[..8] == ZeroWord && t[8..] == s
    ensures |s| != 8 ==> t == s
  {
    if |s| == 8 then ZeroWord + s else s
  }

  function PadPriPrepended(p: HexPulse): HexPulse
  {
    p.(pri := Pad32Prepended(p.pri))
  }

  /** The word `od` shows for two zero bytes is `0000`, of value 0. */
  lemma ZeroWordShown(s: string, k: nat)
    requires EscapedByteAt(s, 2 * k) && EscapedByteAt(s, 2 * k + 1)
    requires s[8 * k..8 * k + 8] == ZeroWord
    ensures OdWord(s, k) == "0000" && HexValue(OdWord(s, k)) == 0
  {
    var z := s[8 * k..8 * k + 8];
    assert ByteDigits(s, 2 * k) == z[2..4];
    assert ByteDigits(s, 2 * k + 1) == z[6..8];
    assert z[2..4] == "00" && z[6..8] == "00";
    ZeroWordValue();
  }

  lemma ZeroWordValue()
    ensures HexValue("0000") == 0
  {
    assert Zeros(4) == "0000" by {
      assert Zeros(1) == "0";
      assert Zeros(2) == "00";
      assert Zeros(3) == "000";
    }
    ZerosValue(4);
  }

  /** The word of a value's first two bytes is kept when bytes follow it, and moves one
      word on when two bytes precede it. */
  lemma WordKept(s: string, t: string, j: nat)
    requires EscapedByteAt(s, 0) && EscapedByteAt(s, 1) && |s| == 8
    requires |t| >= 8 * j + 8 && t[8 * j..8 * j + 8] == s
    ensures EscapedByteAt(t, 2 * j) && EscapedByteAt(t, 2 * j + 1)
    ensures OdWord(t, j) == OdWord(s, 0)
  {
    WordInSlice(t, j, 8 * j + 8, 0);
  }

  /** As written: `parse_header` puts the zero bytes after a 2-byte PRI, while the readback
      takes the PRI's first word as the upper half, so the PRI comes back multiplied by
      2^16. */
  lemma AppendedPriReadback(p: HexPulse, clk: Period)
    requires Escaped(p.pulseWidth, 2) && Escaped(p.pri, 2)
    requires Escaped(p.polMode, 2) && Escaped(p.frequency, 2)
    ensures SlotSized(PadPri(p))
    ensures SlotReadback(PadPri(p), clk).priOffsetNs == HexValue(OdWord(p.pri, 0)) * 0x10000 * clk
  {
    PaddedPulseSized(p);
    var t := PadPri(p).pri;
    Pad32Widens(p.pri);
    assert t[..8] == p.pri;
    WordKept(p.pri, t, 0);
    ZeroWordShown(t, 1);
  }

  /** The smallest case: a PRI of one tick, whose bytes `\x01\x00` `od` shows as the word
      `0001`, reads back as 65536 ticks. */
  lemma AppendedPriExample()
    ensures var p := HexPulse("\\x0a\\x00", "\\x01\\x00", "\\x00\\x00", "\\x00\\x00");
      && Escaped(p.pri, 2) && HexValue(OdWord(p.pri, 0)) == 1
      && SlotSized(PadPri(p)) && SlotReadback(PadPri(p), 10).priOffsetNs == 0x10000 * 10
  {
    var p := HexPulse("\\x0a\\x00", "\\x01\\x00", "\\x00\\x00", "\\x00\\x00");
    EscapedPair(p.pulseWidth);
    EscapedPair(p.pri);
    EscapedPair(p.polMode);
    assert ByteDigits(p.pri, 0) == "01" && ByteDigits(p.pri, 1) == "00";
    assert OdWord(p.pri, 0) == "0001";
    OneWordValue();
    AppendedPriReadback(p, 10);
  }

  lemma EscapedPair(s: string)
    requires |s| == 8 && s[0] == s[4] == '\\' && s[1] == s[5] == 'x'
    requires IsHexDigit(s[2]) && IsHexDigit(s[3]) && IsHexDigit(s[6]) && IsHexDigit(s[7])
    ensures Escaped(s, 2)
  {
    assert EscapedByteAt(s, 0) && EscapedByteAt(s, 1);
  }

  lemma OneWordValue()
    ensures HexValue("0001") == 1
  {
    assert "0001"[..3] == Zeros(3) by {
      assert Zeros(1) == "0";
      assert Zeros(2) == "00";
    }
    ZerosValue(3);
  }

  /** Intended: with the zero bytes before a 2-byte PRI, as the readback's upper-then-lower
      order expects, the PRI comes back as the value of its word, and every other field as
      with the padding as written. */
  lemma PrependedPriReadback(p: HexPulse, clk: Period)
    requires Escaped(p.pulseWidth, 2) && Escaped(p.pri, 2)
    requires Escaped(p.polMode, 2) && Escaped(p.frequency, 2)
    ensures SlotSized(PadPriPrepended(p)) && SlotSized(PadPri(p))
    ensures SlotReadback(PadPriPrepended(p), clk).priOffsetNs == HexValue(OdWord(p.pri, 0)) * clk
    ensures SlotReadback(PadPriPrepended(p), clk)
      == SlotReadback(PadPri(p), clk).(priOffsetNs := HexValue(OdWord(p.pri, 0)) * clk)
  {
    PaddedPulseSized(p);
    var t := Pad32Prepended(p.pri);
    PrependedEscaped(p.pri);
    WordKept(p.pri, t, 1);
    ZeroWordShown(t, 0);
  }

  lemma PrependedEscaped(s: string)
    requires Escaped(s, 2)
    ensures Escaped(Pad32Prepended(s), 4)
  {
    var t := Pad32Prepended(s);
    assert t == ZeroWord + s;
    assert EscapedByteAt(s, 0) && EscapedByteAt(s, 1);
    assert EscapedByteAt(t, 0) by { assert t[0..4] == "\\x00"; }
    assert EscapedByteAt(t, 1) by { assert t[4..8] == "\\x00"; }
    assert EscapedByteAt(t, 2) by { assert t[8] == s[0] && t[9] == s[1] && t[10] == s[2] && t[11] == s[3]; }
    assert EscapedByteAt(t, 3) by { assert t[12] == s[4] && t[13] == s[5] && t[14] == s[6] && t[15] == s[7]; }
  }
}

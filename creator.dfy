/** `TCUParams` (creator.py): the TCU parameters of an experiment written out as the
    PULSES header line and as the VHDL register literals of the HDL snippet. Durations are
    in microseconds; register values are clock ticks. */
module Creator {
  import opened Ticks
  import opened HexLiteral
  import opened Numerals
  import opened Text
  import HeaderParser

  /** One pulse: the `pulse_width`, `pri`, `pol_mode` and `frequency` entries of a pulse
      dictionary (and the fields of `PulseParameters` in creator/creator.py). */
  datatype Pulse = Pulse(pulseWidth: real, pri: real, polMode: real, frequency: real)

  /** The attributes of a `TCUParams` object the encoders read. */
  datatype TcuParams = TcuParams(
    clkPeriodNs: Period,
    numPulses: int,
    numRepeats: int,
    priPulseWidth: real,
    prePulse: real,
    xAmpDelay: real,
    lAmpDelay: real,
    pulses: seq<Pulse>)

  /** The four register fields of one pulse slot, in the order they are written: pulse
      width, PRI (an offset in this revision), polarisation mode and frequency. */
  datatype SlotTicks = SlotTicks(width: int, priField: int, mode: int, frequency: int)

  /** The same four fields as VHDL literals. */
  datatype SlotLiterals = SlotLiterals(width: string, priField: string, mode: string, frequency: string)

  /** The register literals of the HDL snippet: six global registers, then one slot per
      pulse. */
  datatype Registers = Registers(
    numPulses: string,
    numRepeats: string,
    priPulseWidth: string,
    prePulse: string,
    xAmpDelay: string,
    lAmpDelay: string,
    slots: seq<SlotLiterals>)

  /** Pulse-width ticks, the PRI offset `pri - pre_pulse - pulse_width` (all in ticks), and
      the truncated mode and frequency. */
  function SlotTicksOf(pulse: Pulse, preTicks: int, clk: Period): SlotTicks
  {
    var width := ToClockTicks(pulse.pulseWidth, clk);
    var pri := ToClockTicks(pulse.pri, clk);
    SlotTicks(width, pri - preTicks - width, Int(pulse.polMode), Int(pulse.frequency))
  }

  /** Every field big-endian except the frequency, which is byte-swapped. */
  function SlotLiteralsOf(t: SlotTicks): SlotLiterals
  {
    SlotLiterals(Literal(t.width, DefaultEndian), Literal(t.priField, DefaultEndian),
                 Literal(t.mode, DefaultEndian), Literal(t.frequency, LittleEndian))
  }

  /** The global registers: the two counts as they are, the four durations in ticks. */
  function GlobalRegisters(p: TcuParams, slots: seq<SlotLiterals>): Registers
  {
    var clk := p.clkPeriodNs;
    Registers(Literal(p.numPulses, DefaultEndian), Literal(p.numRepeats, DefaultEndian),
              Literal(ToClockTicks(p.priPulseWidth, clk), DefaultEndian),
              Literal(ToClockTicks(p.prePulse, clk), DefaultEndian),
              Literal(ToClockTicks(p.xAmpDelay, clk), DefaultEndian),
              Literal(ToClockTicks(p.lAmpDelay, clk), DefaultEndian),
              slots)
  }

  /** The literals of every pulse slot, in pulse order. */
  function Slots(pulses: seq<Pulse>, prePulse: int, clk: Period): seq<SlotLiterals>
  {
    Map(SlotEncoder(prePulse, clk), pulses)
  }

  /** The body of the snippet's pulse loop as a function of the pulse. */
  function SlotEncoder(prePulse: int, clk: Period): Pulse -> SlotLiterals
  {
    (pulse: Pulse) => SlotLiteralsOf(SlotTicksOf(pulse, prePulse, clk))
  }

  /** The register literals `to_vhdl_snippet` prints. */
  function Snippet(p: TcuParams): Registers
  {
    GlobalRegisters(p, Slots(p.pulses, ToClockTicks(p.prePulse, p.clkPeriodNs), p.clkPeriodNs))
  }

  /** The "Hex Cycles" column `__str__` prints for the global registers, where durations
      are truncated before the floor division. */
  function DisplayColumn(p: TcuParams): (column: seq<string>)
    ensures |column| == 6
  {
    var clk := p.clkPeriodNs;
    [Literal(p.numPulses, DefaultEndian), Literal(p.numRepeats, DefaultEndian),
     Literal(DisplayTicks(p.priPulseWidth, clk), DefaultEndian),
     Literal(DisplayTicks(p.prePulse, clk), DefaultEndian),
     Literal(DisplayTicks(p.xAmpDelay, clk), DefaultEndian),
     Literal(DisplayTicks(p.lAmpDelay, clk), DefaultEndian)]
  }

  /** The header text of each pulse: its four values as `str` writes them. */
  function Texts(pulses: seq<Pulse>, show: real -> string): (r: seq<HeaderParser.PulseText>)
    ensures |r| == |pulses|
    ensures forall i :: 0 <= i < |pulses| ==>
      r[i] == HeaderParser.PulseText(show(pulses[i].pulseWidth), show(pulses[i].pri),
                                     show(pulses[i].polMode), show(pulses[i].frequency))
  {
    seq(|pulses|, i requires 0 <= i < |pulses| =>
      HeaderParser.PulseText(show(pulses[i].pulseWidth), show(pulses[i].pri),
                             show(pulses[i].polMode), show(pulses[i].frequency)))
  }

  /** `to_pulses_string`; `show` stands for Python's `str` on a value. */
  method ToPulsesString(pulses: seq<Pulse>, show: real -> string) returns (s: string)
    ensures s == "PULSES = " + HeaderParser.PulsesValue(Texts(pulses, show))
  {
    ghost var texts := Texts(pulses, show);
    s := "PULSES = \"";
    assert texts[..0] == [];
    assert HeaderParser.PulsesPrefix(texts, 0) == "";
    for index := 0 to |pulses|
      invariant s == "PULSES = \"" + HeaderParser.PulsesPrefix(texts, index)
    {
      HeaderParser.PulsesPrefixStep("PULSES = \"", texts, index);
      HeaderParser.EntryAppend(s, texts[index]);
      var pulse := pulses[index];
      s := s + (show(pulse.pulseWidth) + ",");
      s := s + (show(pulse.pri) + ",");
      s := s + (show(pulse.polMode) + ",");
      s := s + show(pulse.frequency);
      if index < |pulses| - 1 {
        s := s + "|";
      }
    }
    assert texts[..|texts|] == texts;
    s := s + "\"";
  }

  /** The body of the snippet's pulse loop: one pulse's four literals. */
  method EncodeSlot(pulse: Pulse, prePulse: int, clk: Period) returns (l: SlotLiterals)
    ensures l == SlotLiteralsOf(SlotTicksOf(pulse, prePulse, clk))
  {
    var pulseWidth := ToClockTicks(pulse.pulseWidth, clk);
    var pri := ToClockTicks(pulse.pri, clk);
    var priOffset := pri - prePulse - pulseWidth;
    var w := IntToHexStr(pulseWidth);
    var o := IntToHexStr(priOffset);
    var m := IntToHexStr(Int(pulse.polMode));
    var f := IntToHexStr(Int(pulse.frequency), LittleEndian);
    l := SlotLiterals(w, o, m, f);
  }

  /** The register literals of `to_vhdl_snippet`, slot by slot. */
  method ToVhdlSnippet(p: TcuParams) returns (r: Registers)
    ensures r == Snippet(p)
  {
    var clk := p.clkPeriodNs;
    var numPulses := IntToHexStr(p.numPulses);
    var numRepeats := IntToHexStr(p.numRepeats);
    var priPulseWidth := IntToHexStr(ToClockTicks(p.priPulseWidth, clk));
    var prePulse := ToClockTicks(p.prePulse, clk);
    var prePulseHex := IntToHexStr(prePulse);
    var xAmpDelay := IntToHexStr(ToClockTicks(p.xAmpDelay, clk));
    var lAmpDelay := IntToHexStr(ToClockTicks(p.lAmpDelay, clk));
    var slots := EncodeSlots(p.pulses, prePulse, clk);
    r := Registers(numPulses, numRepeats, priPulseWidth, prePulseHex, xAmpDelay, lAmpDelay, slots);
  }

  /** The snippet's pulse loop: the slots encoded one after another. */
  method EncodeSlots(pulses: seq<Pulse>, prePulse: int, clk: Period) returns (slots: seq<SlotLiterals>)
    ensures slots == Slots(pulses, prePulse, clk)
  {
    slots := [];
    for index := 0 to |pulses|
      invariant slots == Slots(pulses[..index], prePulse, clk)
    {
      var slot := EncodeSlot(pulses[index], prePulse, clk);
      MapStep(SlotEncoder(prePulse, clk), pulses, index, slots, slot);
      slots := slots + [slot];
    }
    assert pulses[..|pulses|] == pulses;
  }

  // ---------------------------------------------------------------------------
  // Lemmas

  /** The PRI-offset literal is well formed exactly when the PRI is at least the pre-pulse
      plus the pulse width, counted in ticks; otherwise `hex()` puts a minus sign in it. */
  lemma OffsetLiteralValid(pulse: Pulse, preTicks: int, clk: Period)
    ensures IsHexLiteral(SlotLiteralsOf(SlotTicksOf(pulse, preTicks, clk)).priField)
        <==> ToClockTicks(pulse.pri, clk) >= preTicks + ToClockTicks(pulse.pulseWidth, clk)
  {
    ValidIffNonNegative(SlotTicksOf(pulse, preTicks, clk).priField, DefaultEndian);
  }

  /** A PRI that covers the pre-pulse and the pulse width, in microseconds, never yields a
      negative offset, whatever the truncation. */
  lemma OffsetNonNegative(pulse: Pulse, prePulse: real, clk: Period)
    requires pulse.pri >= prePulse + pulse.pulseWidth
    ensures SlotTicksOf(pulse, ToClockTicks(prePulse, clk), clk).priField >= 0
  {
    TicksMonotone(prePulse + pulse.pulseWidth, pulse.pri, clk);
    TicksSuperadditive(prePulse, pulse.pulseWidth, clk);
  }

  /** Width, offset and mode are written big-endian: each literal is well formed and its
      body reads back as the tick count. The frequency alone is little-endian: swapping
      the bytes of its body gives the big-endian body, which reads back as the frequency. */
  lemma SlotEncoding(t: SlotTicks)
    requires 0 <= t.width && 0 <= t.priField && 0 <= t.mode && 0 <= t.frequency
    ensures var l := SlotLiteralsOf(t);
      && IsHexLiteral(l.width) && HexValue(LiteralBody(l.width)) == t.width
      && IsHexLiteral(l.priField) && HexValue(LiteralBody(l.priField)) == t.priField
      && IsHexLiteral(l.mode) && HexValue(LiteralBody(l.mode)) == t.mode
      && IsHexLiteral(l.frequency)
      && SwapWords(LiteralBody(l.frequency)) == Body(t.frequency, DefaultEndian)
      && HexValue(Body(t.frequency, DefaultEndian)) == t.frequency
  {
    BigEndianField(t.width);
    BigEndianField(t.priField);
    BigEndianField(t.mode);
    ValidIffNonNegative(t.frequency, LittleEndian);
    LiteralShape(t.frequency, LittleEndian);
    LittleEndianUnswap(t.frequency, LittleEndian);
    BigEndianBody(t.frequency);
  }

  lemma BigEndianField(n: nat)
    ensures IsHexLiteral(Literal(n, DefaultEndian))
    ensures HexValue(LiteralBody(Literal(n, DefaultEndian))) == n
  {
    ValidIffNonNegative(n, DefaultEndian);
    LiteralShape(n, DefaultEndian);
    BigEndianBody(n);
  }

  /** For non-negative durations the `__str__` column shows the literals the snippet
      writes for the global registers. */
  lemma DisplayMatchesSnippet(p: TcuParams)
    requires 0.0 <= p.priPulseWidth && 0.0 <= p.prePulse
    requires 0.0 <= p.xAmpDelay && 0.0 <= p.lAmpDelay
    ensures var r := Snippet(p);
      DisplayColumn(p) == [r.numPulses, r.numRepeats, r.priPulseWidth, r.prePulse,
                           r.xAmpDelay, r.lAmpDelay]
  {
    DisplayTicksAgree(p.priPulseWidth, p.clkPeriodNs);
    DisplayTicksAgree(p.prePulse, p.clkPeriodNs);
    DisplayTicksAgree(p.xAmpDelay, p.clkPeriodNs);
    DisplayTicksAgree(p.lAmpDelay, p.clkPeriodNs);
  }

  /** A value text free of `,`, `|` and `"` for every value. */
  ghost predicate PlainShow(show: real -> string)
  {
    forall x :: HeaderParser.PlainText(show(x))
  }

  /** The PULSES value has one `|` fewer than there are pulses, and is `""` for none. */
  lemma PulsesStringSeparators(pulses: seq<Pulse>, show: real -> string)
    requires PlainShow(show)
    ensures pulses == [] ==> HeaderParser.PulsesValue(Texts(pulses, show)) == "\"\""
    ensures pulses != [] ==>
      CountChar(HeaderParser.PulsesValue(Texts(pulses, show)), '|') == |pulses| - 1
  {
    var texts := Texts(pulses, show);
    forall i | 0 <= i < |texts|
      ensures '|' !in HeaderParser.Entry(texts[i])
    {
      assert HeaderParser.PlainText(show(pulses[i].pulseWidth));
      assert HeaderParser.PlainText(show(pulses[i].pri));
      assert HeaderParser.PlainText(show(pulses[i].polMode));
      assert HeaderParser.PlainText(show(pulses[i].frequency));
      HeaderParser.EntryChars(texts[i], '|');
    }
    HeaderParser.PulsesValueSeparators(texts);
  }

  /** The header parser reads the PULSES value back as the same pulse texts, in order. */
  lemma PulsesStringParses(pulses: seq<Pulse>, show: real -> string)
    requires PlainShow(show)
    ensures var texts := Texts(pulses, show);
      && |HeaderParser.PulsesList(HeaderParser.PulsesValue(texts))| == |pulses|
      && HeaderParser.ParsePulses(HeaderParser.PulsesList(HeaderParser.PulsesValue(texts)))
         == Results.Ok(texts)
  {
    var texts := Texts(pulses, show);
    forall i | 0 <= i < |texts|
      ensures HeaderParser.PlainPulse(texts[i])
    {
      assert HeaderParser.PlainText(show(pulses[i].pulseWidth));
      assert HeaderParser.PlainText(show(pulses[i].pri));
      assert HeaderParser.PlainText(show(pulses[i].polMode));
      assert HeaderParser.PlainText(show(pulses[i].frequency));
    }
    HeaderParser.PulsesRoundTrip(texts);
  }

  /** The slot of a 10 us pulse with a 500 us PRI and frequency 8500, after a 30 us
      pre-pulse at 10 ns: the offset is 50000 - 3000 - 1000 = 46000 ticks. */
  lemma ExampleSlotTicks(mode: int)
    ensures SlotTicksOf(Pulse(10.0, 500.0, mode as real, 8500.0), 3000, 10)
         == SlotTicks(1000, 46000, mode, 8500)
  {
    TicksExamples();
    assert Int(8500.0) == 8500;
    assert Int(mode as real) == mode;
  }

  lemma ExampleSlotLiterals(mode: int)
    requires 0 <= mode < 16
    ensures SlotLiteralsOf(SlotTicks(1000, 46000, mode, 8500))
         == SlotLiterals("x\"03e8\"", "x\"b3b0\"", "x\"000" + [HexDigit(mode)] + "\"", "x\"3421\"")
  {
    ExampleWidthLiteral();
    ExampleOffsetLiteral();
    ExampleFrequencyLiteral();
    assert NatHex(mode) == [HexDigit(mode)];
  }

  lemma ExampleWidthLiteral()
    ensures Literal(1000, DefaultEndian) == "x\"03e8\""
  {
    NatHexDigit(0x3, 0xe, "3");
    NatHexDigit(0x3e, 8, "3e");
  }

  lemma ExampleOffsetLiteral()
    ensures Literal(46000, DefaultEndian) == "x\"b3b0\""
  {
    NatHexDigit(0xb, 3, "b");
    NatHexDigit(0xb3, 0xb, "b3");
    NatHexDigit(0xb3b, 0, "b3b");
  }

  lemma ExampleFrequencyLiteral()
    ensures Literal(8500, LittleEndian) == "x\"3421\""
  {
    NatHexDigit(0x2, 1, "2");
    NatHexDigit(0x21, 3, "21");
    NatHexDigit(0x213, 4, "213");
    assert SwapWords("2134") == "3421" by {
      assert "2134"[4..] == [];
    }
  }

  /** Two such pulses with modes 4 and 5, repeated twice: the counts are one word each and
      both slots carry the 46000-tick offset. */
  lemma ExampleSnippet()
    ensures var p := TcuParams(10, 2, 2, 500.0, 30.0, 3.5, 1.0,
                               [Pulse(10.0, 500.0, 4.0, 8500.0), Pulse(10.0, 500.0, 5.0, 8500.0)]);
      var r := Snippet(p);
      && r.numPulses == "x\"0002\"" && r.numRepeats == "x\"0002\""
      && r.prePulse == "x\"0bb8\""
      && |r.slots| == 2
      && r.slots[0] == SlotLiterals("x\"03e8\"", "x\"b3b0\"", "x\"0004\"", "x\"3421\"")
      && r.slots[1] == SlotLiterals("x\"03e8\"", "x\"b3b0\"", "x\"0005\"", "x\"3421\"")
  {
    var p := TcuParams(10, 2, 2, 500.0, 30.0, 3.5, 1.0,
                       [Pulse(10.0, 500.0, 4.0, 8500.0), Pulse(10.0, 500.0, 5.0, 8500.0)]);
    ExampleCountLiterals();
    TicksExamples();
    ExampleSlotTicks(4);
    ExampleSlotTicks(5);
    ExampleSlotLiterals(4);
    ExampleSlotLiterals(5);
    var r := Snippet(p);
    assert r.slots[0] == SlotLiteralsOf(SlotTicks(1000, 46000, 4, 8500));
    assert r.slots[1] == SlotLiteralsOf(SlotTicks(1000, 46000, 5, 8500));
  }

  lemma ExampleCountLiterals()
    ensures Literal(2, DefaultEndian) == "x\"0002\""
    ensures Literal(3000, DefaultEndian) == "x\"0bb8\""
  {
    assert NatHex(2) == "2";
    NatHexDigit(0xb, 0xb, "b");
    NatHexDigit(0xbb, 8, "bb");
  }

  /** A PRI shorter than pre-pulse plus width gives an ill-formed offset literal. */
  lemma ExampleShortPri()
    ensures !IsHexLiteral(SlotLiteralsOf(SlotTicksOf(Pulse(10.0, 5.0, 4.0, 8500.0), 3000, 10)).priField)
  {
    TicksExamples();
    TicksUnique(5.0, 10, 500);
    OffsetLiteralValid(Pulse(10.0, 5.0, 4.0, 8500.0), 3000, 10);
  }
}

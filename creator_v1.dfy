/** `TCUParams` of the earlier revision (creator/creator.py): the same encoders, built from
    constructor arguments rather than a header file, with the raw PRI in each pulse slot
    instead of the offset. Its pulses are `PulseParameters` records, `Creator.Pulse` here. */
module CreatorV1 {
  import opened Ticks
  import opened HexLiteral
  import opened Numerals
  import opened Creator
  import opened Text
  import HeaderParser

  /** Pulse-width ticks, the PRI in ticks as it is, and the truncated mode and frequency. */
  function SlotTicksV1(pulse: Pulse, clk: Period): SlotTicks
  {
    SlotTicks(ToClockTicks(pulse.pulseWidth, clk), ToClockTicks(pulse.pri, clk),
              Int(pulse.polMode), Int(pulse.frequency))
  }

  class TcuParams {
    var clkPeriodNs: Period
    var numPulses: int
    var numRepeats: int
    var priPulseWidth: real
    var prepulse: real
    var xAmpDelay: real
    var lAmpDelay: real
    var params: seq<Pulse>

    /** The constructor, with its default arguments; the pulse list starts empty. */
    constructor (clkPeriodNs: Period := 10, numPulses: int := 1, numRepeats: int := 1,
                 priDutyCycle: real := 50.0, prepulse: real := 30.0, xAmpDelay: real := 3.5,
                 lAmpDelay: real := 1.0)
      ensures this.clkPeriodNs == clkPeriodNs && this.numPulses == numPulses
      ensures this.numRepeats == numRepeats && this.priPulseWidth == priDutyCycle
      ensures this.prepulse == prepulse && this.xAmpDelay == xAmpDelay
      ensures this.lAmpDelay == lAmpDelay && this.params == []
    {
      this.clkPeriodNs := clkPeriodNs;
      this.numPulses := numPulses;
      this.numRepeats := numRepeats;
      this.priPulseWidth := priDutyCycle;
      this.prepulse := prepulse;
      this.xAmpDelay := xAmpDelay;
      this.lAmpDelay := lAmpDelay;
      this.params := [];
    }

    /** The object's attributes as the current revision's parameter record. */
    function State(): Creator.TcuParams
      reads this
    {
      Creator.TcuParams(clkPeriodNs, numPulses, numRepeats, priPulseWidth, prepulse,
                        xAmpDelay, lAmpDelay, params)
    }

    /** The register literals this revision's `to_vhdl_snippet` prints. */
    function Snippet(): Registers
      reads this
    {
      GlobalRegisters(State(), SlotsV1(params, clkPeriodNs))
    }

    /** `to_pulses_string`: the same text as the current revision. */
    method ToPulsesString(show: real -> string) returns (s: string)
      ensures s == "PULSES = " + HeaderParser.PulsesValue(Texts(params, show))
    {
      s := Creator.ToPulsesString(params, show);
    }

    method EncodeSlot(pulse: Pulse) returns (l: SlotLiterals)
      ensures l == SlotLiteralsOf(SlotTicksV1(pulse, clkPeriodNs))
    {
      var w := IntToHexStr(ToClockTicks(pulse.pulseWidth, clkPeriodNs));
      var pri := IntToHexStr(ToClockTicks(pulse.pri, clkPeriodNs));
      var m := IntToHexStr(Int(pulse.polMode));
      var f := IntToHexStr(Int(pulse.frequency), LittleEndian);
      l := SlotLiterals(w, pri, m, f);
    }

    method ToVhdlSnippet() returns (r: Registers)
      ensures r == Snippet()
    {
      var numPulsesHex := IntToHexStr(numPulses);
      var numRepeatsHex := IntToHexStr(numRepeats);
      var priPulseWidthHex := IntToHexStr(ToClockTicks(priPulseWidth, clkPeriodNs));
      var prepulseHex := IntToHexStr(ToClockTicks(prepulse, clkPeriodNs));
      var xAmpDelayHex := IntToHexStr(ToClockTicks(xAmpDelay, clkPeriodNs));
      var lAmpDelayHex := IntToHexStr(ToClockTicks(lAmpDelay, clkPeriodNs));
      var slots := EncodeSlots();
      r := Registers(numPulsesHex, numRepeatsHex, priPulseWidthHex, prepulseHex,
                     xAmpDelayHex, lAmpDelayHex, slots);
    }

    /** The snippet's pulse loop: the slots encoded one after another. */
    method EncodeSlots() returns (slots: seq<SlotLiterals>)
      ensures slots == SlotsV1(params, clkPeriodNs)
    {
      slots := [];
      var pulses, clk := params, clkPeriodNs;
      for index := 0 to |pulses|
        invariant slots == SlotsV1(pulses[..index], clk)
      {
        var slot := EncodeSlot(pulses[index]);
        MapStep(SlotEncoderV1(clk), pulses, index, slots, slot);
        slots := slots + [slot];
      }
      assert pulses[..|pulses|] == pulses;
    }
  }

  /** The literals of every pulse slot with the raw PRI, in pulse order. */
  function SlotsV1(pulses: seq<Pulse>, clk: Period): seq<SlotLiterals>
  {
    Map(SlotEncoderV1(clk), pulses)
  }

  function SlotEncoderV1(clk: Period): Pulse -> SlotLiterals
  {
    (pulse: Pulse) => SlotLiteralsOf(SlotTicksV1(pulse, clk))
  }

  // ---------------------------------------------------------------------------
  // Lemmas

  /** The two revisions differ only in the PRI field: the earlier one writes the PRI ticks
      that the later one reduces by the pre-pulse and pulse-width ticks. */
  lemma PriFieldRevisions(pulse: Pulse, preTicks: int, clk: Period)
    ensures SlotTicksV1(pulse, clk).priField
         == SlotTicksOf(pulse, preTicks, clk).priField + preTicks + SlotTicksOf(pulse, preTicks, clk).width
    ensures SlotTicksV1(pulse, clk).width == SlotTicksOf(pulse, preTicks, clk).width
    ensures SlotTicksV1(pulse, clk).mode == SlotTicksOf(pulse, preTicks, clk).mode
    ensures SlotTicksV1(pulse, clk).frequency == SlotTicksOf(pulse, preTicks, clk).frequency
  {
  }

  /** Mode and frequency come from truncating the recorded values; only the frequency is
      byte-swapped, and a non-negative raw PRI is always a well-formed literal. */
  lemma SlotEncodingV1(pulse: Pulse, clk: Period)
    requires 0.0 <= pulse.pri && 0.0 <= pulse.polMode && 0.0 <= pulse.frequency
    ensures var t := SlotTicksV1(pulse, clk);
      && t.mode == pulse.polMode.Floor && t.frequency == pulse.frequency.Floor
      && IsHexLiteral(SlotLiteralsOf(t).priField)
      && IsHexLiteral(SlotLiteralsOf(t).frequency)
      && SwapWords(LiteralBody(SlotLiteralsOf(t).frequency)) == Body(t.frequency, DefaultEndian)
  {
    var t := SlotTicksV1(pulse, clk);
    TicksMonotone(0.0, pulse.pri, clk);
    TicksUnique(0.0, clk, 0);
    ValidIffNonNegative(t.priField, DefaultEndian);
    ValidIffNonNegative(t.frequency, LittleEndian);
    LiteralShape(t.frequency, LittleEndian);
    LittleEndianUnswap(t.frequency, LittleEndian);
  }

  /** With the default arguments: 50 us, 30 us, 3.5 us and 1 us at 10 ns are 5000, 3000,
      350 and 100 ticks. */
  method DefaultSnippet() returns (r: Registers)
    ensures r.numPulses == "x\"0001\"" && r.numRepeats == "x\"0001\""
    ensures r.priPulseWidth == "x\"1388\"" && r.prePulse == "x\"0bb8\""
    ensures r.xAmpDelay == "x\"015e\"" && r.lAmpDelay == "x\"0064\""
    ensures r.slots == []
  {
    var params := new TcuParams();
    r := params.ToVhdlSnippet();
    DefaultLiterals();
    assert params.State() == Creator.TcuParams(10, 1, 1, 50.0, 30.0, 3.5, 1.0, []);
    assert r == GlobalRegisters(params.State(), []);
  }

  lemma DefaultLiterals()
    ensures Literal(1, DefaultEndian) == "x\"0001\""
    ensures Literal(ToClockTicks(50.0, 10), DefaultEndian) == "x\"1388\""
    ensures Literal(ToClockTicks(30.0, 10), DefaultEndian) == "x\"0bb8\""
    ensures Literal(ToClockTicks(3.5, 10), DefaultEndian) == "x\"015e\""
    ensures Literal(ToClockTicks(1.0, 10), DefaultEndian) == "x\"0064\""
  {
    DefaultCountLiteral();
    DefaultWidthLiteral();
    TicksUnique(30.0, 10, 3000);
    ExampleCountLiterals();
    DefaultDelayLiterals();
  }

  lemma DefaultCountLiteral()
    ensures Literal(1, DefaultEndian) == "x\"0001\""
  {
    assert NatHex(1) == "1";
    assert PadCount(1) == 3;
    assert Zeros(3) == "000";
  }

  lemma DefaultWidthLiteral()
    ensures Literal(ToClockTicks(50.0, 10), DefaultEndian) == "x\"1388\""
  {
    TicksUnique(50.0, 10, 5000);
    NatHexDigit(0x1, 3, "1");
    NatHexDigit(0x13, 8, "13");
    NatHexDigit(0x138, 8, "138");
    BigEndianDigits(0x1388, "1388");
    assert PadCount(4) == 0 && Zeros(0) == "";
  }

  lemma DefaultDelayLiterals()
    ensures Literal(ToClockTicks(3.5, 10), DefaultEndian) == "x\"015e\""
    ensures Literal(ToClockTicks(1.0, 10), DefaultEndian) == "x\"0064\""
  {
    TicksUnique(3.5, 10, 350);
    TicksUnique(1.0, 10, 100);
    NatHexDigit(0x1, 5, "1");
    NatHexDigit(0x15, 0xe, "15");
    NatHexDigit(0x6, 4, "6");
    assert PadCount(3) == 1 && Zeros(1) == "0";
    assert PadCount(2) == 2 && Zeros(2) == "00";
  }
}

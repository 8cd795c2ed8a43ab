/** `HeaderFileParser` (parser.py): the `PulseParameters` section of a NeXtRAD header,
    read into TCU parameters and written back from them. The section is a map from key to
    stored text; a read returns that text after configparser's interpolation. Field values
    other than NUM_PRIS are kept as the text `eval` would be given. */
module HeaderParser {
  import opened Results
  import opened Text
  import opened Numerals
  import opened Interpolation

  /** The keys `get_tcu_params` reads, in the order it reads them. */
  const ReadOrder: seq<string> := ["PULSES", "NUM_PRIS", "PRI_PULSE_WIDTH", "PRE_PULSE",
    "X_AMP_DELAY", "L_AMP_DELAY", "DAC_DELAY", "ADC_DELAY", "SAMPLES_PER_PRI", "WAVEFORM_INDEX"]

  /** The exit status `_extract_param` means to end the program with when a parameter
      cannot be read: `exit(65)`, the status the controller documents for a missing
      parameter. */
  const MissingParamExit: int := 65

  /** One pulse as header text: the four comma-separated fields of a PULSES entry. */
  datatype PulseText = PulseText(pulseWidth: string, pri: string, polMode: string, frequency: string)

  /** The TCU parameters `get_tcu_params` returns. */
  datatype HeaderParams = HeaderParams(
    numPulses: nat,
    numRepeats: int,
    priPulseWidth: string,
    prePulse: string,
    xAmpDelay: string,
    lAmpDelay: string,
    dacDelay: string,
    adcDelay: string,
    samplesPerPri: string,
    waveformIndex: string,
    pulses: seq<PulseText>)

  /** The dictionary `set_tcu_params` is given, with every value other than the two counts
      already written as text by `str`. */
  datatype TcuSettings = TcuSettings(
    numPulses: int,
    numRepeats: int,
    priPulseWidth: string,
    prePulse: string,
    xAmpDelay: string,
    lAmpDelay: string,
    dacDelay: string,
    adcDelay: string,
    samplesPerPri: string,
    waveformIndex: string,
    pulses: seq<PulseText>)

  /** Why reading the section stops: a missing key or a stored value the interpolation
      rejects (both the `exit(65)` `_extract_param` intends; `ExtractAsWritten` is what its
      handler does as written), a NUM_PRIS that is not an integer literal, or a PULSES
      entry with fewer than four fields (an IndexError). */
  datatype ParseError =
    | MissingParam(key: string)
    | Unreadable(key: string, reason: InterpolationError)
    | BadInteger(key: string, text: string)
    | MalformedPulse(entry: string)

  /** `w,pri,mode,freq` */
  function Entry(p: PulseText): string
  {
    p.pulseWidth + "," + p.pri + "," + p.polMode + "," + p.frequency
  }

  function Entries(ps: seq<PulseText>): seq<string>
  {
    seq(|ps|, i requires 0 <= i < |ps| => Entry(ps[i]))
  }

  /** The PULSES value: the entries joined by `|`, in double quotes. */
  function PulsesValue(ps: seq<PulseText>): string
  {
    "\"" + Join(Entries(ps), "|") + "\""
  }

  /** What `_extract_param` is meant to give for a key: the value as a read returns it, or
      the `exit(65)` for that key when it is missing or its value cannot be read. */
  function Extract(section: map<string, string>, key: string): (r: Result<string, ParseError>)
    ensures key !in section <==> r == Err(MissingParam(key))
    ensures key in section && '%' !in section[key] ==> r == Ok(section[key])
    ensures r.Err? ==> (r.error.MissingParam? || r.error.Unreadable?) && r.error.key == key
  {
    if key !in section then Err(MissingParam(key))
    else
      PlainValueRead(section, key);
      match Interpolate(section, section[key], 1)
      case Ok(v) => Ok(v)
      case Err(e) => Err(Unreadable(key, e))
  }

  /** A stored value without `%` is read back unchanged. */
  lemma PlainValueRead(section: map<string, string>, key: string)
    requires key in section
    ensures '%' !in section[key] ==> Interpolate(section, section[key], 1) == Ok(section[key])
  {
    if '%' !in section[key] {
      PlainValue(section, section[key], 1);
    }
  }

  /** The status the program ends with: the intended `exit(65)` for a parameter that
      cannot be read, and 1, Python's status for an uncaught exception, otherwise. */
  function ExitStatus(e: ParseError): (status: int)
    ensures status == MissingParamExit <==> e.MissingParam? || e.Unreadable?
  {
    if e.MissingParam? || e.Unreadable? then MissingParamExit else 1
  }

  /** An exception nothing catches: Python ends the program with status 1. */
  datatype Uncaught = AttributeError(attribute: string)

  /** `_extract_param` as written: its handler formats the log message with
      `self.file_name`, an attribute `HeaderFileParser` never sets, so whatever failure
      brings the read there, the handler itself raises before it reaches `exit(65)`. */
  function ExtractAsWritten(section: map<string, string>, key: string): (r: Result<string, Uncaught>)
    ensures r.Ok? <==> Extract(section, key).Ok?
    ensures r.Ok? ==> r.value == Extract(section, key).value
    ensures r.Err? ==> r.error == AttributeError("file_name")
  {
    if key !in section then Err(AttributeError("file_name"))
    else
      match Interpolate(section, section[key], 1)
      case Ok(v) => Ok(v)
      case Err(_) => Err(AttributeError("file_name"))
  }

  /** `eval` of the NUM_PRIS text, for an integer literal. */
  function Integer(key: string, text: string): Result<int, ParseError>
  {
    match ParseInteger(text)
    case Some(n) => Ok(n)
    case None => Err(BadInteger(key, text))
  }

  /** The PULSES value with every `"` removed and split on `|`; an empty value has no
      entries. */
  function PulsesList(value: string): seq<string>
  {
    var parts := Split(RemoveChar(value, '"'), "|");
    if parts == [""] then [] else parts
  }

  /** One entry: its first four comma-separated fields; later fields are ignored. */
  function ParsePulse(entry: string): Option<PulseText>
  {
    var f := Split(entry, ",");
    if |f| < 4 then None else Some(PulseText(f[0], f[1], f[2], f[3]))
  }

  /** The entries parsed in order; the first malformed entry is the error. */
  function ParsePulses(entries: seq<string>): Result<seq<PulseText>, ParseError>
    decreases |entries|
  {
    if entries == [] then Ok([])
    else
      var init :- ParsePulses(entries[..|entries| - 1]);
      match ParsePulse(entries[|entries| - 1])
      case None => Err(MalformedPulse(entries[|entries| - 1]))
      case Some(p) => Ok(init + [p])
  }

  /** The result of `get_tcu_params` on a section: keys read in `ReadOrder`, then the
      pulses, the first failure ending the reading. */
  function TcuParamsOf(section: map<string, string>): Result<HeaderParams, ParseError>
  {
    var pulsesValue :- Extract(section, "PULSES");
    var entries := PulsesList(pulsesValue);
    var numPulses := |entries|;
    var numPrisText :- Extract(section, "NUM_PRIS");
    var numPris :- Integer("NUM_PRIS", numPrisText);
    var numRepeats := if numPulses != 0 then numPris / numPulses else 0;
    var priPulseWidth :- Extract(section, "PRI_PULSE_WIDTH");
    var prePulse :- Extract(section, "PRE_PULSE");
    var xAmpDelay :- Extract(section, "X_AMP_DELAY");
    var lAmpDelay :- Extract(section, "L_AMP_DELAY");
    var dacDelay :- Extract(section, "DAC_DELAY");
    var adcDelay :- Extract(section, "ADC_DELAY");
    var samplesPerPri :- Extract(section, "SAMPLES_PER_PRI");
    var waveformIndex :- Extract(section, "WAVEFORM_INDEX");
    var pulses :- ParsePulses(entries);
    Ok(HeaderParams(numPulses, numRepeats, priPulseWidth, prePulse, xAmpDelay, lAmpDelay,
                    dacDelay, adcDelay, samplesPerPri, waveformIndex, pulses))
  }

  /** The section after `set_tcu_params(s)`: ten keys overwritten, the others kept. */
  function Written(section: map<string, string>, s: TcuSettings): map<string, string>
  {
    section["PULSES" := PulsesValue(s.pulses)]
           ["NUM_PRIS" := IntToDecimal(s.numPulses * s.numRepeats)]
           ["PRI_PULSE_WIDTH" := s.priPulseWidth]
           ["PRE_PULSE" := s.prePulse]
           ["X_AMP_DELAY" := s.xAmpDelay]
           ["L_AMP_DELAY" := s.lAmpDelay]
           ["DAC_DELAY" := s.dacDelay]
           ["ADC_DELAY" := s.adcDelay]
           ["SAMPLES_PER_PRI" := s.samplesPerPri]
           ["WAVEFORM_INDEX" := s.waveformIndex]
  }

  /** The PULSES text after the first i pulses of the writer's loop: the joined entries,
      and a `|` when another pulse follows. */
  function PulsesPrefix(ps: seq<PulseText>, i: nat): string
    requires i <= |ps|
  {
    Join(Entries(ps[..i]), "|") + (if 0 < i < |ps| then "|" else "")
  }

  class HeaderFileParser {
    /** `file_parser['PulseParameters']` */
    var section: map<string, string>

    /** A parser with no header file: every key `0`, PULSES the empty quoted string. */
    constructor ()
      ensures forall k :: k in section <==> k in ReadOrder
      ensures section["PULSES"] == "\"\""
      ensures forall k :: k in section && k != "PULSES" ==> section[k] == "0"
      ensures HasReadKeys(section)
    {
      section := map["WAVEFORM_INDEX" := "0", "NUM_PRIS" := "0", "PRE_PULSE" := "0",
                     "PRI_PULSE_WIDTH" := "0", "X_AMP_DELAY" := "0", "L_AMP_DELAY" := "0",
                     "DAC_DELAY" := "0", "ADC_DELAY" := "0", "SAMPLES_PER_PRI" := "0",
                     "PULSES" := "\"\""];
    }

    /** `_extract_param` as intended: the value as a read returns it, or the `exit(65)`
        naming the key. */
    method ExtractParam(param: string) returns (r: Result<string, ParseError>)
      ensures r == Extract(section, param)
      ensures param !in section ==> r == Err(MissingParam(param))
      ensures param in section && '%' !in section[param] ==> r == Ok(section[param])
      ensures param in section && r.Err? ==> r.error.Unreadable? && r.error.key == param
    {
      if param in section {
        var read := Interpolate(section, section[param], 1);
        if read.Ok? {
          r := Ok(read.value);
        } else {
          r := Err(Unreadable(param, read.error));
        }
      } else {
        r := Err(MissingParam(param));
      }
    }

    method GetTcuParams() returns (r: Result<HeaderParams, ParseError>)
      ensures r == TcuParamsOf(section)
    {
      var pulsesValue :- ExtractParam("PULSES");
      var pulsesText := RemoveChar(pulsesValue, '"');
      var pulsesList := Split(pulsesText, "|");
      if pulsesList == [""] {
        pulsesList := [];
      }
      var numPulses := |pulsesList|;
      var numPrisText :- ExtractParam("NUM_PRIS");
      var numPris :- Integer("NUM_PRIS", numPrisText);
      var numRepeats := 0;
      if numPulses != 0 {
        numRepeats := numPris / numPulses;
      }
      var priPulseWidth :- ExtractParam("PRI_PULSE_WIDTH");
      var prePulse :- ExtractParam("PRE_PULSE");
      var xAmpDelay :- ExtractParam("X_AMP_DELAY");
      var lAmpDelay :- ExtractParam("L_AMP_DELAY");
      var dacDelay :- ExtractParam("DAC_DELAY");
      var adcDelay :- ExtractParam("ADC_DELAY");
      var samplesPerPri :- ExtractParam("SAMPLES_PER_PRI");
      var waveformIndex :- ExtractParam("WAVEFORM_INDEX");
      var pulses :- ReadPulses(pulsesList);
      r := Ok(HeaderParams(numPulses, numRepeats, priPulseWidth, prePulse, xAmpDelay, lAmpDelay,
                           dacDelay, adcDelay, samplesPerPri, waveformIndex, pulses));
    }

    /** The loop of `get_tcu_params` over the entries: the first four comma-separated
        fields of each. */
    static method ReadPulses(pulsesList: seq<string>) returns (r: Result<seq<PulseText>, ParseError>)
      ensures r == ParsePulses(pulsesList)
    {
      var pulses: seq<PulseText> := [];
      for i := 0 to |pulsesList|
        invariant ParsePulses(pulsesList[..i]) == Ok(pulses)
      {
        assert pulsesList[..i + 1][..i] == pulsesList[..i];
        var pulseParams := Split(pulsesList[i], ",");
        if |pulseParams| < 4 {
          ParsePulsesPrefixError(pulsesList, i);
          return Err(MalformedPulse(pulsesList[i]));
        }
        pulses := pulses + [PulseText(pulseParams[0], pulseParams[1], pulseParams[2], pulseParams[3])];
      }
      assert pulsesList[..|pulsesList|] == pulsesList;
      r := Ok(pulses);
    }

    /** The PULSES half of `set_tcu_params`: the quoted value built up in place, one
        entry at a time. */
    method WritePulses(ps: seq<PulseText>)
      modifies this
      ensures section == old(section)["PULSES" := PulsesValue(ps)]
    {
      ghost var start := section;
      section := section["PULSES" := "\""];
      assert ps[..0] == [];
      assert PulsesPrefix(ps, 0) == "";
      assert "\"" + PulsesPrefix(ps, 0) == "\"";
      for index := 0 to |ps|
        invariant section == start["PULSES" := "\"" + PulsesPrefix(ps, index)]
      {
        PulsesPrefixStep("\"", ps, index);
        ghost var before := section["PULSES"];
        section := section["PULSES" := section["PULSES"] + Entry(ps[index])];
        UpdateTwice(start, "PULSES", before, before + Entry(ps[index]));
        if index < |ps| - 1 {
          ghost var middle := section["PULSES"];
          section := section["PULSES" := section["PULSES"] + "|"];
          UpdateTwice(start, "PULSES", middle, middle + "|");
        } else {
          assert before + Entry(ps[index]) == before + Entry(ps[index]) + "";
        }
      }
      assert ps[..|ps|] == ps;
      assert PulsesPrefix(ps, |ps|) == Join(Entries(ps), "|");
      section := section["PULSES" := section["PULSES"] + "\""];
    }

    method SetTcuParams(s: TcuSettings)
      modifies this
      ensures section == Written(old(section), s)
      ensures HasReadKeys(section)
    {
      WrittenHasReadKeys(old(section), s);
      WritePulses(s.pulses);
      section := section["NUM_PRIS" := IntToDecimal(s.numPulses * s.numRepeats)];
      section := section["PRI_PULSE_WIDTH" := s.priPulseWidth];
      section := section["PRE_PULSE" := s.prePulse];
      section := section["X_AMP_DELAY" := s.xAmpDelay];
      section := section["L_AMP_DELAY" := s.lAmpDelay];
      section := section["DAC_DELAY" := s.dacDelay];
      section := section["ADC_DELAY" := s.adcDelay];
      section := section["SAMPLES_PER_PRI" := s.samplesPerPri];
      section := section["WAVEFORM_INDEX" := s.waveformIndex];
    }
  }

  // ---------------------------------------------------------------------------
  // Lemmas

  /** A malformed entry after i well-formed ones is the error of the whole list. */
  lemma ParsePulsesPrefixError(entries: seq<string>, i: nat)
    requires i < |entries|
    requires ParsePulses(entries[..i]).Ok?
    requires ParsePulse(entries[i]).None?
    ensures ParsePulses(entries) == Err(MalformedPulse(entries[i]))
  {
    ParsePulsesErrorExtends(entries, i + 1);
    assert entries[..i + 1][..i] == entries[..i];
  }

  /** Once a prefix fails, the whole list fails with the same error. */
  lemma {:induction false} ParsePulsesErrorExtends(entries: seq<string>, n: nat)
    requires n <= |entries|
    requires ParsePulses(entries[..n]).Err?
    ensures ParsePulses(entries) == ParsePulses(entries[..n])
    decreases |entries| - n
  {
    if n < |entries| {
      assert entries[..n + 1][..n] == entries[..n];
      ParsePulsesErrorExtends(entries, n + 1);
    } else {
      assert entries[..n] == entries;
    }
  }

  lemma UpdateTwice(m: map<string, string>, k: string, a: string, b: string)
    ensures m[k := a][k := b] == m[k := b]
  {
  }

  lemma PulsesPrefixStep(head: string, ps: seq<PulseText>, i: nat)
    requires i < |ps|
    ensures head + PulsesPrefix(ps, i) + Entry(ps[i]) + (if i < |ps| - 1 then "|" else "")
         == head + PulsesPrefix(ps, i + 1)
  {
    PrefixStep(ps, i);
    PrependHead(head, PulsesPrefix(ps, i), Entry(ps[i]), if i < |ps| - 1 then "|" else "",
                PulsesPrefix(ps, i + 1));
  }

  /** Appending the four values one by one, each but the last with its comma, appends
      the entry. */
  lemma EntryAppend(before: string, t: PulseText)
    ensures before + (t.pulseWidth + ",") + (t.pri + ",") + (t.polMode + ",") + t.frequency
         == before + Entry(t)
  {
    var a, b, c := t.pulseWidth + ",", t.pri + ",", t.polMode + ",";
    assert Entry(t) == a + t.pri + "," + t.polMode + "," + t.frequency;
    assert a + t.pri + "," == a + b;
    assert a + b + t.polMode + "," == a + b + c;
    assert before + a + b + c + t.frequency == before + (a + b + c + t.frequency);
  }

  lemma PrependHead(head: string, a: string, b: string, c: string, d: string)
    requires a + b + c == d
    ensures head + a + b + c == head + d
  {
    assert head + a + b + c == head + (a + b + c);
  }

  lemma PrefixStep(ps: seq<PulseText>, i: nat)
    requires i < |ps|
    ensures PulsesPrefix(ps, i) + Entry(ps[i]) + (if i < |ps| - 1 then "|" else "")
         == PulsesPrefix(ps, i + 1)
  {
    var e, x := Entries(ps[..i]), Entry(ps[i]);
    var sep := if i < |ps| - 1 then "|" else "";
    assert Entries(ps[..i + 1]) == e + [x];
    JoinSnoc(e, x, "|");
    if i == 0 {
      assert e == [];
      assert PulsesPrefix(ps, 0) == "";
      assert PulsesPrefix(ps, 1) == x + sep;
    } else {
      assert PulsesPrefix(ps, i) == Join(e, "|") + "|";
      assert PulsesPrefix(ps, i + 1) == Join(e, "|") + "|" + x + sep;
    }
  }

  /** A fresh parser reads as zero pulses and zero repeats, every value `0`. */
  lemma FreshParserParams(section: map<string, string>)
    requires forall k :: k in section <==> k in ReadOrder
    requires section["PULSES"] == "\"\""
    requires forall k :: k in section && k != "PULSES" ==> section[k] == "0"
    ensures TcuParamsOf(section) == Ok(HeaderParams(0, 0, "0", "0", "0", "0", "0", "0", "0", "0", []))
  {
    assert "PULSES" in ReadOrder && "NUM_PRIS" in ReadOrder && "PRI_PULSE_WIDTH" in ReadOrder;
    assert "PRE_PULSE" in ReadOrder && "X_AMP_DELAY" in ReadOrder && "L_AMP_DELAY" in ReadOrder;
    assert "DAC_DELAY" in ReadOrder && "ADC_DELAY" in ReadOrder;
    assert "SAMPLES_PER_PRI" in ReadOrder && "WAVEFORM_INDEX" in ReadOrder;
    PlainValueRead(section, "PULSES");
    PlainValueRead(section, "NUM_PRIS");
    assert RemoveChar("\"\"", '"') == "";
    assert PulsesList(section["PULSES"]) == [];
    assert ParsePulses([]) == Ok([]);
    ParseIntegerRoundTrip(0);
    assert IntToDecimal(0) == "0";
    assert Integer("NUM_PRIS", section["NUM_PRIS"]) == Ok(0);
  }

  /** `num_pulses` counts the `|`-separated entries once the quotes are removed, and an
      empty value has none. */
  lemma NumPulsesCount(value: string)
    ensures var t := RemoveChar(value, '"');
      |PulsesList(value)| == if t == "" then 0 else CountChar(t, '|') + 1
  {
    var t := RemoveChar(value, '"');
    SplitCount(t, '|');
    SplitEmpty(t, '|');
  }

  /** `num_repeats` is the floor of NUM_PRIS over the pulse count, and 0 without pulses. */
  lemma NumRepeatsOf(section: map<string, string>)
    requires TcuParamsOf(section).Ok?
    ensures var p, t := TcuParamsOf(section).value, Extract(section, "NUM_PRIS");
      && t.Ok? && ParseInteger(t.value).Some?
      && (p.numPulses == 0 ==> p.numRepeats == 0)
      && (p.numPulses != 0 ==>
            p.numPulses * p.numRepeats <= ParseInteger(t.value).value
                                        < p.numPulses * (p.numRepeats + 1))
  {
    var pv, t := Extract(section, "PULSES"), Extract(section, "NUM_PRIS");
    if pv.Err? || t.Err? || ParseInteger(t.value).None? { assert false; }
    var numPris := ParseInteger(t.value).value;
    var count := |PulsesList(pv.value)|;
    var p := TcuParamsOf(section).value;
    assert p.numPulses == count && p.numRepeats == if count != 0 then numPris / count else 0;
    if count != 0 {
      DivBracket(numPris, count);
    }
  }

  /** Floor division brackets its dividend. */
  lemma DivBracket(a: int, b: int)
    requires b > 0
    ensures b * (a / b) <= a < b * (a / b + 1)
  {
  }

  /** Every key of `ReadOrder` must be present: otherwise the reading fails. */
  lemma MissingKeyFails(section: map<string, string>, k: string)
    requires k in ReadOrder && k !in section
    ensures TcuParamsOf(section).Err?
  {
  }

  /** Parsing the entries fails only on a malformed entry. */
  lemma {:induction false} ParsePulsesErrorKind(entries: seq<string>)
    requires ParsePulses(entries).Err?
    ensures ParsePulses(entries).error.MalformedPulse?
    decreases |entries|
  {
    if ParsePulses(entries[..|entries| - 1]).Err? {
      ParsePulsesErrorKind(entries[..|entries| - 1]);
    }
  }

  /** A missing key is reported, under its name, only when it is in fact missing. */
  lemma MissingParamIsMissing(section: map<string, string>)
    requires TcuParamsOf(section).Err? && TcuParamsOf(section).error.MissingParam?
    ensures TcuParamsOf(section).error.key in ReadOrder
    ensures TcuParamsOf(section).error.key !in section
  {
    var r := TcuParamsOf(section);
    var pv := Extract(section, "PULSES");
    if pv.Err? { assert r.error == pv.error; return; }
    var np := Extract(section, "NUM_PRIS");
    if np.Err? { assert r.error == np.error; return; }
    if ParseInteger(np.value).None? { assert false; }
    var x0 := Extract(section, "PRI_PULSE_WIDTH");
    if x0.Err? { assert r.error == x0.error; return; }
    var x1 := Extract(section, "PRE_PULSE");
    if x1.Err? { assert r.error == x1.error; return; }
    var x2 := Extract(section, "X_AMP_DELAY");
    if x2.Err? { assert r.error == x2.error; return; }
    var x3 := Extract(section, "L_AMP_DELAY");
    if x3.Err? { assert r.error == x3.error; return; }
    var x4 := Extract(section, "DAC_DELAY");
    if x4.Err? { assert r.error == x4.error; return; }
    var x5 := Extract(section, "ADC_DELAY");
    if x5.Err? { assert r.error == x5.error; return; }
    var x6 := Extract(section, "SAMPLES_PER_PRI");
    if x6.Err? { assert r.error == x6.error; return; }
    var x7 := Extract(section, "WAVEFORM_INDEX");
    if x7.Err? { assert r.error == x7.error; return; }
    ParsePulsesErrorKind(PulsesList(pv.value));
  }

  /** A parameter that cannot be read, as written and as intended: as written the handler
      fails on `self.file_name`, so the program ends with status 1 and the message naming
      the key is never logged; as intended it is the `exit(65)` for that key. */
  lemma FailedReadAsWritten(section: map<string, string>, key: string)
    requires Extract(section, key).Err?
    ensures ExtractAsWritten(section, key) == Err(AttributeError("file_name"))
    ensures Extract(section, key).error.key == key
    ensures ExitStatus(Extract(section, key).error) == MissingParamExit
  {
  }

  /** Every key `get_tcu_params` reads is in the section. */
  predicate HasReadKeys(section: map<string, string>)
  {
    forall k :: k in ReadOrder ==> k in section
  }

  /** `set_tcu_params` leaves every key `get_tcu_params` reads in the section, whatever the
      section held before; the constructor starts with exactly those keys. */
  lemma WrittenHasReadKeys(section: map<string, string>, s: TcuSettings)
    ensures HasReadKeys(Written(section, s))
  {
    WrittenFields(section, s);
  }

  /** While every key is present, no reading fails for a missing key: the one failure that
      reaches `_extract_param`'s handler is a value the interpolation rejects. */
  lemma NoMissingParam(section: map<string, string>)
    requires HasReadKeys(section)
    ensures TcuParamsOf(section).Err? ==> !TcuParamsOf(section).error.MissingParam?
  {
    if TcuParamsOf(section).Err? && TcuParamsOf(section).error.MissingParam? {
      MissingParamIsMissing(section);
      assert false;
    }
  }

  /** The section of a fresh parser with NUM_PRIS replaced by `5%`, as a header line
      `NUM_PRIS = 5%` leaves it. */
  function PercentSection(): map<string, string>
  {
    map["WAVEFORM_INDEX" := "0", "NUM_PRIS" := "5%", "PRE_PULSE" := "0",
        "PRI_PULSE_WIDTH" := "0", "X_AMP_DELAY" := "0", "L_AMP_DELAY" := "0",
        "DAC_DELAY" := "0", "ADC_DELAY" := "0", "SAMPLES_PER_PRI" := "0",
        "PULSES" := "\"\""]
  }

  /** As written: `NUM_PRIS = 5%` makes the read raise InterpolationSyntaxError, which the
      handler catches and then fails on `self.file_name`. */
  lemma PercentValueAsWritten()
    ensures "NUM_PRIS" in PercentSection()
    ensures ExtractAsWritten(PercentSection(), "NUM_PRIS") == Err(AttributeError("file_name"))
  {
    var section := PercentSection();
    LonePercent(section, "5", "", 1);
    assert "5" + "%" + "" == section["NUM_PRIS"];
  }

  /** As intended: the same header ends the reading with the `exit(65)` for NUM_PRIS, after
      PULSES has been read. */
  lemma PercentValueIntended()
    ensures TcuParamsOf(PercentSection()) == Err(Unreadable("NUM_PRIS", BadSyntax))
    ensures ExitStatus(TcuParamsOf(PercentSection()).error) == MissingParamExit
  {
    var section := PercentSection();
    LonePercent(section, "5", "", 1);
    assert "5" + "%" + "" == section["NUM_PRIS"];
    PlainValueRead(section, "PULSES");
  }

  /** The entry of a pulse whose fields contain no comma splits back into those fields. */
  lemma ParseEntry(p: PulseText)
    requires ',' !in p.pulseWidth && ',' !in p.pri && ',' !in p.polMode && ',' !in p.frequency
    ensures ParsePulse(Entry(p)) == Some(p)
  {
    var parts := [p.pulseWidth, p.pri, p.polMode, p.frequency];
    assert Join(parts, ",") == Entry(p) by {
      var t1, t2, t3 := parts[1..], parts[2..], parts[3..];
      assert t3 == [p.frequency];
      assert Join(t3, ",") == p.frequency;
      assert t2 == [p.polMode, p.frequency] && t2[1..] == t3;
      assert Join(t2, ",") == p.polMode + "," + p.frequency;
      assert t1 == [p.pri, p.polMode, p.frequency] && t1[1..] == t2;
      assert Join(t1, ",") == p.pri + "," + (p.polMode + "," + p.frequency);
    }
    SplitJoin(parts, ",");
  }

  predicate PlainText(s: string)
  {
    ',' !in s && '|' !in s && '"' !in s
  }

  predicate PlainPulse(p: PulseText)
  {
    PlainText(p.pulseWidth) && PlainText(p.pri) && PlainText(p.polMode) && PlainText(p.frequency)
  }

  lemma EntryChars(p: PulseText, c: char)
    requires c != ','
    requires c !in p.pulseWidth && c !in p.pri && c !in p.polMode && c !in p.frequency
    ensures c !in Entry(p)
  {
  }

  /** Parsing the written PULSES value gives the pulses back, in order, when no field text
      contains `,`, `|` or `"`. */
  lemma {:induction false} PulsesRoundTrip(ps: seq<PulseText>)
    requires forall i :: 0 <= i < |ps| ==> PlainPulse(ps[i])
    ensures PulsesList(PulsesValue(ps)) == Entries(ps)
    ensures ParsePulses(Entries(ps)) == Ok(ps)
  {
    var es := Entries(ps);
    Unquoted(ps);
    if ps == [] {
      assert Split("", "|") == [""];
    } else {
      SplitJoin(es, "|");
      assert es != [""] by {
        assert |es[0]| >= 3;
      }
    }
    ParsePulsesOfEntries(ps);
  }

  /** Removing the quotes from the written value leaves the `|`-joined entries. */
  lemma Unquoted(ps: seq<PulseText>)
    requires forall i :: 0 <= i < |ps| ==> PlainPulse(ps[i])
    ensures RemoveChar(PulsesValue(ps), '"') == Join(Entries(ps), "|")
  {
    var es := Entries(ps);
    forall i | 0 <= i < |es|
      ensures '"' !in es[i] && '|' !in es[i]
    {
      EntryChars(ps[i], '"');
      EntryChars(ps[i], '|');
    }
    NotInJoin(es, "|", '"');
    RemoveCharConcat("\"" + Join(es, "|"), "\"", '"');
    RemoveCharConcat("\"", Join(es, "|"), '"');
    RemoveCharAbsent(Join(es, "|"), '"');
  }

  lemma {:induction false} ParsePulsesOfEntries(ps: seq<PulseText>)
    requires forall i :: 0 <= i < |ps| ==> PlainPulse(ps[i])
    ensures ParsePulses(Entries(ps)) == Ok(ps)
    decreases |ps|
  {
    if ps != [] {
      var n := |ps| - 1;
      var es := Entries(ps);
      assert es[..n] == Entries(ps[..n]);
      ParsePulsesOfEntries(ps[..n]);
      ParseEntry(ps[n]);
      assert ps[..n] + [ps[n]] == ps;
    }
  }

  lemma MulAtLeast(n: int, d: int)
    requires n > 0 && d >= 1
    ensures n * d >= n
  {
  }

  lemma MulDivCancel(n: int, r: int)
    requires n > 0
    ensures (n * r) / n == r
  {
    var q, m := (n * r) / n, (n * r) % n;
    assert n * (r - q) == m;
    if q < r {
      MulAtLeast(n, r - q);
      assert false;
    } else if q > r {
      MulAtLeast(n, q - r);
      assert false;
    }
  }

  /** No text `set_tcu_params` writes contains a `%`, so every value reads back as it was
      stored. */
  predicate PercentFree(s: TcuSettings)
  {
    && '%' !in s.priPulseWidth && '%' !in s.prePulse && '%' !in s.xAmpDelay
    && '%' !in s.lAmpDelay && '%' !in s.dacDelay && '%' !in s.adcDelay
    && '%' !in s.samplesPerPri && '%' !in s.waveformIndex
    && forall i :: 0 <= i < |s.pulses| ==> '%' !in Entry(s.pulses[i])
  }

  /** `str` of an integer has no `%`. */
  lemma DecimalHasNoPercent(n: int)
    ensures '%' !in IntToDecimal(n)
  {
    var m := if n < 0 then -n else n;
    var d := NatToDecimal(m);
    assert forall i :: 0 <= i < |d| ==> IsDecDigit(d[i]);
    if n < 0 {
      assert IntToDecimal(n) == "-" + d;
    }
  }

  /** Every key `set_tcu_params` wrote reads back as the text written. */
  lemma WrittenReads(section: map<string, string>, s: TcuSettings)
    requires PercentFree(s)
    ensures var w := Written(section, s);
      && Extract(w, "PULSES") == Ok(PulsesValue(s.pulses))
      && Extract(w, "NUM_PRIS") == Ok(IntToDecimal(s.numPulses * s.numRepeats))
      && Extract(w, "PRI_PULSE_WIDTH") == Ok(s.priPulseWidth)
      && Extract(w, "PRE_PULSE") == Ok(s.prePulse)
      && Extract(w, "X_AMP_DELAY") == Ok(s.xAmpDelay)
      && Extract(w, "L_AMP_DELAY") == Ok(s.lAmpDelay)
      && Extract(w, "DAC_DELAY") == Ok(s.dacDelay)
      && Extract(w, "ADC_DELAY") == Ok(s.adcDelay)
      && Extract(w, "SAMPLES_PER_PRI") == Ok(s.samplesPerPri)
      && Extract(w, "WAVEFORM_INDEX") == Ok(s.waveformIndex)
  {
    WrittenFields(section, s);
    DecimalHasNoPercent(s.numPulses * s.numRepeats);
    var es := Entries(s.pulses);
    NotInJoin(es, "|", '%');
    assert PulsesValue(s.pulses) == "\"" + Join(es, "|") + "\"";
  }

  /** Writing TCU parameters and reading them back returns the same pulse count, repeat
      count, values and pulses, when `num_pulses` is the number of pulses and there is at
      least one, no pulse field contains `,`, `|` or `"`, and no text contains `%`. */
  lemma WriteReadRoundTrip(section: map<string, string>, s: TcuSettings)
    requires s.numPulses == |s.pulses| > 0
    requires forall i :: 0 <= i < |s.pulses| ==> PlainPulse(s.pulses[i])
    requires PercentFree(s)
    ensures TcuParamsOf(Written(section, s))
         == Ok(HeaderParams(|s.pulses|, s.numRepeats, s.priPulseWidth, s.prePulse, s.xAmpDelay,
                            s.lAmpDelay, s.dacDelay, s.adcDelay, s.samplesPerPri,
                            s.waveformIndex, s.pulses))
  {
    var w := Written(section, s);
    WrittenFields(section, s);
    WrittenReads(section, s);
    PulsesRoundTrip(s.pulses);
    assert |PulsesList(w["PULSES"])| == |s.pulses|;
    ParseIntegerRoundTrip(s.numPulses * s.numRepeats);
    assert Integer("NUM_PRIS", w["NUM_PRIS"]) == Ok(s.numPulses * s.numRepeats);
    MulDivCancel(s.numPulses, s.numRepeats);
  }

  lemma WrittenFields(section: map<string, string>, s: TcuSettings)
    ensures var w := Written(section, s);
      && "PULSES" in w && w["PULSES"] == PulsesValue(s.pulses)
      && "NUM_PRIS" in w && w["NUM_PRIS"] == IntToDecimal(s.numPulses * s.numRepeats)
      && "PRI_PULSE_WIDTH" in w && w["PRI_PULSE_WIDTH"] == s.priPulseWidth
      && "PRE_PULSE" in w && w["PRE_PULSE"] == s.prePulse
      && "X_AMP_DELAY" in w && w["X_AMP_DELAY"] == s.xAmpDelay
      && "L_AMP_DELAY" in w && w["L_AMP_DELAY"] == s.lAmpDelay
      && "DAC_DELAY" in w && w["DAC_DELAY"] == s.dacDelay
      && "ADC_DELAY" in w && w["ADC_DELAY"] == s.adcDelay
      && "SAMPLES_PER_PRI" in w && w["SAMPLES_PER_PRI"] == s.samplesPerPri
      && "WAVEFORM_INDEX" in w && w["WAVEFORM_INDEX"] == s.waveformIndex
  {
  }

  /** The written PULSES value has exactly one `|` fewer than there are pulses, and is the
      empty quoted string for none. */
  lemma PulsesValueSeparators(ps: seq<PulseText>)
    requires forall i :: 0 <= i < |ps| ==> '|' !in Entry(ps[i])
    ensures ps == [] ==> PulsesValue(ps) == "\"\""
    ensures ps != [] ==> CountChar(PulsesValue(ps), '|') == |ps| - 1
  {
    if ps != [] {
      var es := Entries(ps);
      CountJoin(es, '|');
      CountConcat("\"", Join(es, "|"), '|');
      CountConcat("\"" + Join(es, "|"), "\"", '|');
    }
  }
}

/** `TCUParams._int_to_hex_str` (creator.py, and the identical copy in creator/creator.py):
    an integer written as a VHDL bit-string literal `x"…"` (IEEE 1076-2008, section 15.8)
    whose body is `hex(num)` zero-padded to whole 16-bit words, with the two bytes of every
    word optionally swapped. */
module HexLiteral {
  import opened Numerals

  /** The default of the `endian` argument: 'b', big-endian (the docstring claims the
      default is little-endian; the code says otherwise). */
  const DefaultEndian: string := "b"

  /** The argument the pulse encoder passes for the frequency field; any value other than
      "b" selects the byte swap. */
  const LittleEndian: string := "l"

  /** `hex(num).replace('0x', '')`: a negative number keeps its minus sign. */
  function PyHex(num: int): (r: string)
    ensures |r| >= 1
  {
    if num < 0 then "-" + NatHex(-num) else NatHex(num)
  }

  /** `num_zeros_to_pad`: the zeros that bring a length up to a whole number of words. */
  function PadCount(len: nat): nat
  {
    if len % 4 != 0 then 4 - len % 4 else 0
  }

  function PadToWords(s: string): string
  {
    Zeros(PadCount(|s|)) + s
  }

  /** The two bytes (digit pairs) of every 16-bit word exchanged, word order kept; the
      digits are always whole words here, and a shorter tail would be kept as it is. */
  function SwapWords(s: string): (r: string)
    ensures |r| == |s|
    decreases |s|
  {
    if |s| < 4 then s else s[2..4] + s[..2] + SwapWords(s[4..])
  }

  /** The padded digits as the chosen endianness arranges them. */
  function Arrange(s: string, endian: string): string
  {
    if endian == "b" then s else SwapWords(s)
  }

  function Body(num: int, endian: string): string
  {
    Arrange(PadToWords(PyHex(num)), endian)
  }

  /** The string `_int_to_hex_str(num, endian)` returns. */
  function Literal(num: int, endian: string): string
  {
    "x\"" + Body(num, endian) + "\""
  }

  /** What lies between `x"` and the closing quote. */
  function LiteralBody(lit: string): string
    requires |lit| >= 3
  {
    lit[2..|lit| - 1]
  }

  /** A well-formed hexadecimal bit-string literal of at least one whole 16-bit word. */
  predicate IsHexLiteral(lit: string)
  {
    |lit| >= 7 && lit[..2] == "x\"" && lit[|lit| - 1] == '"'
    && |LiteralBody(lit)| % 4 == 0 && AllHex(LiteralBody(lit))
  }

  /** The digit pair `byte_list` receives for word j: (upper, lower), or (lower, upper)
      when the bytes are swapped. */
  function WordBytes(s: string, j: nat, endian: string): (string, string)
    requires 4 * j + 4 <= |s|
  {
    var upper := s[4 * j..4 * j + 2];
    var lower := s[4 * j + 2..4 * j + 4];
    if endian == "b" then (upper, lower) else (lower, upper)
  }

  /** The first loop of `_int_to_hex_str`: each word's two bytes, in the chosen order. */
  method ByteList(hexNum: string, numWords: nat, endian: string) returns (byteList: seq<(string, string)>)
    requires 4 * numWords == |hexNum|
    ensures |byteList| == numWords
    ensures forall j :: 0 <= j < numWords ==> byteList[j] == WordBytes(hexNum, j, endian)
  {
    byteList := [];
    var index := 0;
    for count := 0 to numWords
      invariant index == 4 * count
      invariant |byteList| == count
      invariant forall j :: 0 <= j < count ==> byteList[j] == WordBytes(hexNum, j, endian)
    {
      var byteUpper := hexNum[index..index + 2];
      var byteLower := hexNum[index + 2..index + 4];
      if endian == "b" {
        byteList := byteList + [(byteUpper, byteLower)];
      } else {
        byteList := byteList + [(byteLower, byteUpper)];
      }
      index := index + 4;
    }
  }

  method IntToHexStr(num: int, endian: string := DefaultEndian) returns (lit: string)
    ensures lit == Literal(num, endian)
  {
    var hexNum := PyHex(num);
    var numZerosToPad := 0;
    if |hexNum| % 4 != 0 {
      numZerosToPad := 4 - |hexNum| % 4;
    }
    hexNum := Zeros(numZerosToPad) + hexNum;
    PadLength(PyHex(num));
    assert hexNum == PadToWords(PyHex(num));
    var numBytes := |hexNum| / 2;
    var numWords := numBytes / 2;
    QuarterOf(|hexNum|);
    var byteList := ByteList(hexNum, numWords, endian);
    var hexStr := "x\"";
    for i := 0 to |byteList|
      invariant hexStr == "x\"" + Arrange(hexNum[..4 * i], endian)
    {
      var word := byteList[i];
      HexStrStep(hexStr, hexNum, i, endian, word);
      hexStr := hexStr + word.0 + word.1;
    }
    assert hexNum[..4 * |byteList|] == hexNum;
    lit := hexStr + "\"";
  }

  // ---------------------------------------------------------------------------
  // Lemmas

  lemma {:induction false} SwapWordsSnoc(a: string, w: string)
    requires |a| % 4 == 0 && |w| == 4
    ensures SwapWords(a + w) == SwapWords(a) + w[2..4] + w[..2]
    decreases |a|
  {
    if a == [] {
      assert a + w == w;
      assert SwapWords(w) == w[2..4] + w[..2] + SwapWords(w[4..]);
      assert w[4..] == [];
    } else {
      SwapWordsSnoc(a[4..], w);
      SwapWordsSnocStep(a, w);
    }
  }

  /** The inductive step of `SwapWordsSnoc`: from the words after the first to all. */
  lemma SwapWordsSnocStep(a: string, w: string)
    requires |a| % 4 == 0 && |a| >= 4 && |w| == 4
    requires SwapWords(a[4..] + w) == SwapWords(a[4..]) + w[2..4] + w[..2]
    ensures SwapWords(a + w) == SwapWords(a) + w[2..4] + w[..2]
  {
    var p, q, t := a[2..4] + a[..2], SwapWords(a[4..]), w[2..4] + w[..2];
    Regroup(q, w[2..4], w[..2]);
    assert SwapWords(a + w) == p + (q + t) by {
      SwapFront(a + w);
      FrontParts(a, w);
    }
    SwapFront(a);
    Regroup(p, q, t);
    Regroup(p + q, w[2..4], w[..2]);
  }

  lemma SwapFront(s: string)
    requires |s| >= 4
    ensures SwapWords(s) == s[2..4] + s[..2] + SwapWords(s[4..])
  {
  }

  lemma FrontParts(a: string, w: string)
    requires |a| >= 4
    ensures (a + w)[2..4] == a[2..4] && (a + w)[..2] == a[..2] && (a + w)[4..] == a[4..] + w
  {
  }

  lemma Regroup(p: string, q: string, t: string)
    ensures p + (q + t) == p + q + t
  {
  }

  lemma HexStrStep(acc: string, s: string, i: nat, endian: string, word: (string, string))
    requires 4 * i + 4 <= |s|
    requires acc == "x\"" + Arrange(s[..4 * i], endian)
    requires word == WordBytes(s, i, endian)
    ensures acc + word.0 + word.1 == "x\"" + Arrange(s[..4 * i + 4], endian)
  {
    ArrangeStep(s, i, endian);
  }

  /** One more word of digits adds that word's pair, in the order `byte_list` holds it. */
  lemma ArrangeStep(s: string, i: nat, endian: string)
    requires 4 * i + 4 <= |s|
    ensures Arrange(s[..4 * i + 4], endian)
         == Arrange(s[..4 * i], endian) + WordBytes(s, i, endian).0 + WordBytes(s, i, endian).1
  {
    var done, w := s[..4 * i], s[4 * i..4 * i + 4];
    assert s[..4 * i + 4] == done + w;
    assert w[..2] == s[4 * i..4 * i + 2] && w[2..4] == s[4 * i + 2..4 * i + 4];
    if endian == "b" {
      assert w == w[..2] + w[2..4];
    } else {
      SwapWordsSnoc(done, w);
    }
  }

  /** The position a digit moves to when the bytes of its word are swapped. */
  function SwapIndex(k: nat): nat
  {
    if k % 4 < 2 then k + 2 else k - 2
  }

  lemma {:induction false} SwapWordsAt(s: string, k: nat)
    requires |s| % 4 == 0 && k < |s|
    ensures SwapIndex(k) < |s|
    ensures SwapWords(s)[k] == s[SwapIndex(k)]
    decreases |s|
  {
    assert SwapWords(s) == s[2..4] + s[..2] + SwapWords(s[4..]);
    if k >= 4 {
      SwapWordsAt(s[4..], k - 4);
      assert (k - 4) % 4 == k % 4;
    }
  }

  /** Swapping the bytes twice gives the digits back. */
  lemma {:induction false} SwapWordsInvolution(s: string)
    requires |s| % 4 == 0
    ensures SwapWords(SwapWords(s)) == s
    decreases |s|
  {
    if s != [] {
      var t := SwapWords(s);
      assert t[..2] == s[2..4] && t[2..4] == s[..2];
      assert t[4..] == SwapWords(s[4..]);
      SwapWordsInvolution(s[4..]);
      assert s[..2] + s[2..4] + s[4..] == s;
    }
  }

  lemma SwapWordsAllHex(s: string)
    requires |s| % 4 == 0
    ensures AllHex(SwapWords(s)) <==> AllHex(s)
  {
    forall t: string | |t| % 4 == 0 && AllHex(t)
      ensures AllHex(SwapWords(t))
    {
      forall k | 0 <= k < |t|
        ensures IsHexDigit(SwapWords(t)[k])
      {
        SwapWordsAt(t, k);
      }
    }
    SwapWordsInvolution(s);
  }

  lemma QuarterOf(n: nat)
    requires n % 4 == 0
    ensures 4 * (n / 2 / 2) == n
  {
    var q := n / 4;
    assert n == 4 * q;
    assert n / 2 == 2 * q;
  }

  lemma PadLength(s: string)
    ensures |PadToWords(s)| % 4 == 0
    ensures |PadToWords(s)| == 4 * ((|s| + 3) / 4)
  {
  }

  /** The literal is `x"` + 4k digits + `"`, where k = ceil(len(hex(num)) / 4) >= 1. */
  lemma LiteralShape(num: int, endian: string)
    ensures var lit := Literal(num, endian);
      && |lit| >= 7 && lit[..2] == "x\"" && lit[|lit| - 1] == '"'
      && LiteralBody(lit) == Body(num, endian)
      && |Body(num, endian)| == 4 * ((|PyHex(num)| + 3) / 4)
  {
    PadLength(PyHex(num));
    var lit := Literal(num, endian);
    assert lit[2..|lit| - 1] == Body(num, endian);
  }

  /** Big-endian: the body read as hexadecimal is num; the padding is leading zeros only. */
  lemma BigEndianBody(num: nat)
    ensures var b := Body(num, DefaultEndian);
      && |b| >= |NatHex(num)|
      && b[|b| - |NatHex(num)|..] == NatHex(num)
      && (forall i :: 0 <= i < |b| - |NatHex(num)| ==> b[i] == '0')
      && AllHex(b) && HexValue(b) == num
  {
    var k := PadCount(|NatHex(num)|);
    LeadingZeros(k, NatHex(num));
    NatHexValue(num);
    var b := Body(num, DefaultEndian);
    assert b == Zeros(k) + NatHex(num);
    assert b[|b| - |NatHex(num)|..] == NatHex(num);
  }

  /** Any other endianness swaps the two bytes inside each word and keeps the word order. */
  lemma LittleEndianWord(num: int, endian: string, j: nat)
    requires endian != DefaultEndian
    requires 4 * j + 4 <= |Body(num, DefaultEndian)|
    ensures var big, little := Body(num, DefaultEndian), Body(num, endian);
      && |little| == |big|
      && little[4 * j..4 * j + 4] == big[4 * j + 2..4 * j + 4] + big[4 * j..4 * j + 2]
  {
    var p := PadToWords(PyHex(num));
    PadLength(PyHex(num));
    assert Body(num, DefaultEndian) == p;
    assert Body(num, endian) == SwapWords(p);
    SwapWordsSlice(p, j);
  }

  /** Word j of the swapped digits is word j of the original with its two bytes exchanged. */
  lemma {:induction false} SwapWordsSlice(s: string, j: nat)
    requires |s| % 4 == 0 && 4 * j + 4 <= |s|
    ensures SwapWords(s)[4 * j..4 * j + 4] == s[4 * j + 2..4 * j + 4] + s[4 * j..4 * j + 2]
    decreases j
  {
    var w := SwapWords(s);
    var t := s[4..];
    if j == 0 {
      assert w == s[2..4] + s[..2] + SwapWords(t);
      assert w[..4] == s[2..4] + s[..2];
    } else {
      SwapWordsSlice(t, j - 1);
      var i := 4 * (j - 1);
      assert w == s[2..4] + s[..2] + SwapWords(t);
      assert w[4 * j..4 * j + 4] == SwapWords(t)[i..i + 4];
      assert t[i + 2..i + 4] == s[4 * j + 2..4 * j + 4];
      assert t[i..i + 2] == s[4 * j..4 * j + 2];
    }
  }

  /** Swapping the bytes of a little-endian body gives the big-endian body back. */
  lemma LittleEndianUnswap(num: int, endian: string)
    requires endian != DefaultEndian
    ensures |Body(num, endian)| % 4 == 0
    ensures SwapWords(Body(num, endian)) == Body(num, DefaultEndian)
  {
    PadLength(PyHex(num));
    SwapWordsInvolution(Body(num, DefaultEndian));
  }

  /** `hex()` of a negative number carries a minus sign, so the literal is well formed
      exactly when num is non-negative. */
  lemma ValidIffNonNegative(num: int, endian: string)
    ensures IsHexLiteral(Literal(num, endian)) <==> num >= 0
  {
    LiteralShape(num, endian);
    var p := PadToWords(PyHex(num));
    PadLength(PyHex(num));
    SwapWordsAllHex(p);
    var k := PadCount(|PyHex(num)|);
    if num >= 0 {
      LeadingZeros(k, NatHex(num));
    } else {
      assert p[k] == '-';
      assert !IsHexDigit(p[k]);
    }
  }

  /** 0 is one word of zeros; 0x1234 is `x"1234"` big-endian and `x"3412"` little-endian. */
  lemma LiteralExamples()
    ensures Literal(0, DefaultEndian) == "x\"0000\""
    ensures Literal(0x1234, DefaultEndian) == "x\"1234\""
    ensures Literal(0x1234, LittleEndian) == "x\"3412\""
    ensures Literal(0x12345, DefaultEndian) == "x\"00012345\""
  {
    ZeroLiteral();
    WordLiterals();
    TwoWordLiteral();
  }

  /** A non-negative number is written, big-endian, as its digits behind the padding. */
  lemma BigEndianDigits(num: nat, digits: string)
    requires NatHex(num) == digits
    ensures Literal(num, DefaultEndian) == "x\"" + Zeros(PadCount(|digits|)) + digits + "\""
  {
  }

  lemma ZeroLiteral()
    ensures Literal(0, DefaultEndian) == "x\"0000\""
  {
    assert NatHex(0) == "0";
    assert PadCount(1) == 3;
    assert Zeros(3) == "000";
  }

  lemma HexDigits1234()
    ensures NatHex(0x1234) == "1234"
  {
    NatHexDigit(0x1, 2, "1");
    NatHexDigit(0x12, 3, "12");
    NatHexDigit(0x123, 4, "123");
  }

  lemma WordLiterals()
    ensures Literal(0x1234, DefaultEndian) == "x\"1234\""
    ensures Literal(0x1234, LittleEndian) == "x\"3412\""
  {
    HexDigits1234();
    BigEndianDigits(0x1234, "1234");
    assert PadCount(4) == 0 && Zeros(0) == "";
    LittleWordLiteral();
  }

  lemma LittleWordLiteral()
    requires PyHex(0x1234) == "1234"
    ensures Literal(0x1234, LittleEndian) == "x\"3412\""
  {
    assert PadCount(4) == 0 && Zeros(0) == "";
    assert Body(0x1234, LittleEndian) == SwapWords("1234");
    assert SwapWords("1234") == "3412" by {
      assert "1234"[2..4] == "34" && "1234"[..2] == "12" && "1234"[4..] == "";
    }
  }

  lemma TwoWordLiteral()
    ensures Literal(0x12345, DefaultEndian) == "x\"00012345\""
  {
    HexDigits1234();
    NatHexDigit(0x1234, 5, "1234");
    assert PadCount(5) == 3;
    assert Zeros(3) == "000";
  }
}

/** The Python string operations the codec is built from, as functions on `seq<char>`:
    `sep.join`, `s.split(sep)`, `s.replace(c, '')`, `s.find(c)`, `s.count(c)`, `s.lstrip()`, clipped
    slicing, the flattening of a list of lists, and a list comprehension. */
module Text {

  /** `sep.join(parts)`. */
  function Join(parts: seq<string>, sep: string): string
  {
    if parts == [] then ""
    else if |parts| == 1 then parts[0]
    else parts[0] + sep + Join(parts[1..], sep)
  }

  /** `s.split(sep)` for a non-empty separator: the pieces between the leftmost,
      non-overlapping occurrences of `sep`; there is always at least one piece. */
  function Split(s: string, sep: string): (r: seq<string>)
    requires sep != []
    ensures |r| >= 1
    decreases |s|
  {
    if |s| < |sep| then [s]
    else if s[..|sep|] == sep then [""] + Split(s[|sep|..], sep)
    else
      var rest := Split(s[1..], sep);
      [[s[0]] + rest[0]] + rest[1..]
  }

  /** `s.replace(c, '')` for a one-character `c`. */
  function RemoveChar(s: string, c: char): (r: string)
    ensures c !in r
    ensures |r| <= |s|
  {
    if s == [] then ""
    else (if s[0] == c then "" else [s[0]]) + RemoveChar(s[1..], c)
  }

  /** `s.find(c)` for a one-character `c`, with `len(s)` in place of -1 when `c` does not
      occur. */
  function Find(s: string, c: char): (i: nat)
    ensures i <= |s|
    ensures forall j :: 0 <= j < i ==> s[j] != c
    ensures i < |s| ==> s[i] == c
    ensures i == |s| <==> c !in s
  {
    if s == [] || s[0] == c then 0 else 1 + Find(s[1..], c)
  }

  /** `s.count(c)` for a one-character `c`. */
  function CountChar(s: string, c: char): nat
  {
    if s == [] then 0 else (if s[0] == c then 1 else 0) + CountChar(s[1..], c)
  }

  /** The characters `str.isspace` accepts, which `str.lstrip()` removes. */
  predicate IsPyWhitespace(c: char)
  {
    c == ' ' || ('\t' <= c <= '\r') || ('\U{1c}' <= c <= '\U{1f}')
    || c == '\U{85}' || c == '\U{a0}' || c == '\U{1680}' || ('\U{2000}' <= c <= '\U{200a}')
    || c == '\U{2028}' || c == '\U{2029}' || c == '\U{202f}' || c == '\U{205f}' || c == '\U{3000}'
  }

  /** `s.lstrip()`; `LStripSuffix` states what it leaves. */
  function LStrip(s: string): string
  {
    if s != [] && IsPyWhitespace(s[0]) then LStrip(s[1..]) else s
  }

  /** `s[lo:hi]` for non-negative bounds: both are clipped to the length of `s`. */
  function PySlice(s: string, lo: nat, hi: nat): (r: string)
    ensures lo <= hi <= |s| ==> r == s[lo..hi]
  {
    var h := if hi <= |s| then hi else |s|;
    var l := if lo <= h then lo else h;
    s[l..h]
  }

  /** The concatenation of a list of lists, in order. */
  function Flatten<T>(xss: seq<seq<T>>): seq<T>
  {
    if xss == [] then [] else Flatten(xss[..|xss| - 1]) + xss[|xss| - 1]
  }

  /** `[f(x) for x in xs]`, built one element after another. */
  function Map<A, B>(f: A -> B, xs: seq<A>): (r: seq<B>)
    ensures |r| == |xs|
    ensures forall i :: 0 <= i < |xs| ==> r[i] == f(xs[i])
  {
    if xs == [] then [] else Map(f, xs[..|xs| - 1]) + [f(xs[|xs| - 1])]
  }

  /** A list whose every element is the image of the corresponding one is their map. */
  lemma MapPointwise<A, B>(f: A -> B, xs: seq<A>, ys: seq<B>)
    requires |ys| == |xs|
    requires forall i :: 0 <= i < |xs| ==> ys[i] == f(xs[i])
    ensures ys == Map(f, xs)
  {
  }

  /** One step of a loop that builds `Map(f, xs)` element by element. */
  lemma MapStep<A, B>(f: A -> B, xs: seq<A>, i: nat, acc: seq<B>, y: B)
    requires i < |xs| && acc == Map(f, xs[..i]) && y == f(xs[i])
    ensures acc + [y] == Map(f, xs[..i + 1])
  {
    assert xs[..i + 1] == xs[..i] + [xs[i]];
    MapSnoc(f, xs[..i], xs[i]);
  }

  /** Mapping one more element appends its image. */
  lemma MapSnoc<A, B>(f: A -> B, xs: seq<A>, x: A)
    ensures Map(f, xs + [x]) == Map(f, xs) + [f(x)]
  {
    assert (xs + [x])[..|xs|] == xs;
  }

  // ---------------------------------------------------------------------------
  // Lemmas

  lemma {:induction false} SplitNoSep(a: string, sep: string)
    requires sep != [] && sep[0] !in a
    ensures Split(a, sep) == [a]
    decreases |a|
  {
    if |a| >= |sep| {
      assert a[..|sep|][0] == a[0];
      SplitNoSep(a[1..], sep);
      assert [a[0]] + a[1..] == a;
    }
  }

  lemma {:induction false} SplitAfterPart(a: string, rest: string, sep: string)
    requires sep != [] && sep[0] !in a
    ensures Split(a + sep + rest, sep) == [a] + Split(rest, sep)
    decreases |a|
  {
    var s := a + sep + rest;
    if a == [] {
      assert s == sep + rest;
      assert s[..|sep|] == sep;
      assert s[|sep|..] == rest;
    } else {
      assert s[..|sep|][0] == a[0];
      assert s[1..] == a[1..] + sep + rest;
      SplitAfterPart(a[1..], rest, sep);
      assert [a[0]] + a[1..] == a;
    }
  }

  /** Splitting a join gives the parts back, provided no part contains the first
      character of the separator. */
  lemma {:induction false} SplitJoin(parts: seq<string>, sep: string)
    requires sep != [] && parts != []
    requires forall i :: 0 <= i < |parts| ==> sep[0] !in parts[i]
    ensures Split(Join(parts, sep), sep) == parts
    decreases |parts|
  {
    if |parts| == 1 {
      SplitNoSep(parts[0], sep);
    } else {
      SplitJoin(parts[1..], sep);
      SplitAfterPart(parts[0], Join(parts[1..], sep), sep);
    }
  }

  /** Appending one part to a join appends the separator and the part. */
  lemma {:induction false} JoinSnoc(parts: seq<string>, x: string, sep: string)
    ensures Join(parts + [x], sep) == if parts == [] then x else Join(parts, sep) + sep + x
    decreases |parts|
  {
    if parts == [] {
      assert parts + [x] == [x];
    } else if |parts| == 1 {
      assert parts + [x] == [parts[0], x];
    } else {
      assert (parts + [x])[1..] == parts[1..] + [x];
      JoinSnoc(parts[1..], x, sep);
    }
  }

  /** Splitting on a one-character separator gives one more piece than there are
      separators. */
  lemma {:induction false} SplitCount(s: string, c: char)
    ensures |Split(s, [c])| == CountChar(s, c) + 1
    decreases |s|
  {
    if |s| >= 1 {
      SplitCount(s[1..], c);
      assert s[..1] == [c] <==> s[0] == c;
    }
  }

  /** Only the empty string splits into the single empty piece. */
  lemma SplitEmpty(s: string, c: char)
    ensures Split(s, [c]) == [""] <==> s == ""
  {
    if s != "" {
      if s[0] == c {
        assert s[..1] == [c];
        assert |Split(s, [c])| >= 2;
      } else {
        assert s[..1] != [c];
        assert |Split(s, [c])[0]| >= 1;
      }
    }
  }

  lemma {:induction false} NotInJoin(parts: seq<string>, sep: string, c: char)
    requires c !in sep
    requires forall i :: 0 <= i < |parts| ==> c !in parts[i]
    ensures c !in Join(parts, sep)
    decreases |parts|
  {
    if |parts| > 1 {
      NotInJoin(parts[1..], sep, c);
    }
  }

  lemma {:induction false} RemoveCharAbsent(s: string, c: char)
    requires c !in s
    ensures RemoveChar(s, c) == s
    decreases |s|
  {
    if s != [] {
      RemoveCharAbsent(s[1..], c);
      assert [s[0]] + s[1..] == s;
    }
  }

  lemma {:induction false} RemoveCharConcat(a: string, b: string, c: char)
    ensures RemoveChar(a + b, c) == RemoveChar(a, c) + RemoveChar(b, c)
    decreases |a|
  {
    if a == [] {
      assert a + b == b;
    } else {
      assert (a + b)[0] == a[0];
      assert (a + b)[1..] == a[1..] + b;
      RemoveCharConcat(a[1..], b, c);
    }
  }

  lemma {:induction false} CountConcat(a: string, b: string, c: char)
    ensures CountChar(a + b, c) == CountChar(a, c) + CountChar(b, c)
    decreases |a|
  {
    if a == [] {
      assert a + b == b;
    } else {
      assert (a + b)[0] == a[0];
      assert (a + b)[1..] == a[1..] + b;
      CountConcat(a[1..], b, c);
    }
  }

  lemma {:induction false} CountAbsent(s: string, c: char)
    requires c !in s
    ensures CountChar(s, c) == 0
    decreases |s|
  {
    if s != [] {
      CountAbsent(s[1..], c);
    }
  }

  /** Joining n parts that do not contain `c` with the separator `[c]` puts exactly n - 1
      copies of `c` into the result. */
  lemma {:induction false} CountJoin(parts: seq<string>, c: char)
    requires parts != []
    requires forall i :: 0 <= i < |parts| ==> c !in parts[i]
    ensures CountChar(Join(parts, [c]), c) == |parts| - 1
    decreases |parts|
  {
    if |parts| == 1 {
      CountAbsent(parts[0], c);
    } else {
      CountJoin(parts[1..], c);
      CountAbsent(parts[0], c);
      CountConcat(parts[0], [c], c);
      CountConcat(parts[0] + [c], Join(parts[1..], [c]), c);
    }
  }

  /** `lstrip` leaves a suffix of its argument that does not start with whitespace. */
  lemma {:induction false} LStripSuffix(s: string)
    ensures var r := LStrip(s);
      && (r == [] || !IsPyWhitespace(r[0]))
      && |r| <= |s| && r == s[|s| - |r|..]
    decreases |s|
  {
    if s != [] && IsPyWhitespace(s[0]) {
      LStripSuffix(s[1..]);
      var r := LStrip(s);
      assert s[1..][|s| - 1 - |r|..] == s[|s| - |r|..];
    }
  }

  /** `lstrip` removes an indentation of spaces and stops at the first other character. */
  lemma {:induction false} LStripIndent(indent: string, s: string)
    requires forall i :: 0 <= i < |indent| ==> indent[i] == ' '
    requires s == [] || !IsPyWhitespace(s[0])
    ensures LStrip(indent + s) == s
    decreases |indent|
  {
    if indent == [] {
      assert indent + s == s;
    } else {
      assert (indent + s)[1..] == indent[1..] + s;
      LStripIndent(indent[1..], s);
    }
  }

  lemma FlattenSnoc<T>(xss: seq<seq<T>>, xs: seq<T>)
    ensures Flatten(xss + [xs]) == Flatten(xss) + xs
  {
    assert (xss + [xs])[..|xss|] == xss;
  }

  lemma {:induction false} FlattenConcat<T>(a: seq<seq<T>>, b: seq<seq<T>>)
    ensures Flatten(a + b) == Flatten(a) + Flatten(b)
    decreases |b|
  {
    if b == [] {
      assert a + b == a;
    } else {
      var b' := b[..|b| - 1];
      assert a + b == (a + b') + [b[|b| - 1]];
      assert b == b' + [b[|b| - 1]];
      FlattenSnoc(a + b', b[|b| - 1]);
      FlattenSnoc(b', b[|b| - 1]);
      FlattenConcat(a, b');
    }
  }

  /** Flattening lists that all have length k places list i at positions k*i .. k*i+k. */
  lemma {:induction false} FlattenUniform<T>(xss: seq<seq<T>>, k: nat, i: nat)
    requires forall j :: 0 <= j < |xss| ==> |xss[j]| == k
    requires i < |xss|
    ensures |Flatten(xss)| == k * |xss|
    ensures k * i + k <= k * |xss|
    ensures Flatten(xss)[k * i .. k * i + k] == xss[i]
    decreases |xss|
  {
    var n := |xss| - 1;
    MulStep(k, i, |xss|);
    var front := Flatten(xss[..n]);
    FlattenLength(xss, k);
    FlattenLength(xss[..n], k);
    assert Flatten(xss) == front + xss[n];
    if i < n {
      FlattenUniform(xss[..n], k, i);
      MulStep(k, i, n);
      SliceLeft(front, xss[n], k * i, k * i + k);
    } else {
      SliceRight(front, xss[n]);
    }
  }

  lemma MulStep(k: nat, i: nat, n: nat)
    requires i < n
    ensures k * i + k <= k * n
  {
    assert k * (i + 1) <= k * n;
  }

  lemma SliceLeft<T>(a: seq<T>, b: seq<T>, lo: nat, hi: nat)
    requires lo <= hi <= |a|
    ensures (a + b)[lo..hi] == a[lo..hi]
  {
  }

  lemma SliceRight<T>(a: seq<T>, b: seq<T>)
    ensures (a + b)[|a|..|a| + |b|] == b
  {
  }

  lemma {:induction false} FlattenLength<T>(xss: seq<seq<T>>, k: nat)
    requires forall j :: 0 <= j < |xss| ==> |xss[j]| == k
    ensures |Flatten(xss)| == k * |xss|
    decreases |xss|
  {
    if xss != [] {
      var init := xss[..|xss| - 1];
      FlattenLength(init, k);
      assert |Flatten(xss)| == |Flatten(init)| + k;
      assert k * |xss| == k * |init| + k;
    }
  }
}

/** The interpolation configparser applies by default (`BasicInterpolation`) whenever a value
    is read, as in `file_parser['PulseParameters'][param]`: `%%` stands for one `%`,
    `%(name)s` for the value of key `name` of the same section (itself interpolated when it
    contains a `%`), and any other `%` is an InterpolationSyntaxError. A reference to a key
    the section lacks is an InterpolationMissingOptionError, and references nested more than
    ten deep are an InterpolationDepthError. */
module Interpolation {
  import opened Results
  import opened Text

  /** `MAX_INTERPOLATION_DEPTH` */
  const MaxDepth: nat := 10

  datatype InterpolationError =
    | BadSyntax
    | MissingOption(name: string)
    | TooDeep

  /** The text a read returns for the stored text `rest`, at nesting level `depth` (a
      read starts at level 1): left to right, the text before each `%` is kept, and the
      `%` and what follows it are replaced or rejected. */
  function Interpolate(section: map<string, string>, rest: string, depth: nat): Result<string, InterpolationError>
    decreases MaxDepth + 1 - depth, |rest|
  {
    if depth > MaxDepth then Err(TooDeep)
    else if rest == [] then Ok([])
    else
      var p := Find(rest, '%');
      if p == |rest| then Ok(rest)
      else if p > 0 then
        var tail :- Interpolate(section, rest[p..], depth);
        Ok(rest[..p] + tail)
      else if |rest| >= 2 && rest[1] == '%' then
        var tail :- Interpolate(section, rest[2..], depth);
        Ok("%" + tail)
      else if |rest| >= 2 && rest[1] == '(' then
        // `%\(([^)]+)\)s`: a non-empty name up to the first `)`, then `s`
        var close := 2 + Find(rest[2..], ')');
        if close == 2 || close + 1 >= |rest| || rest[close + 1] != 's' then Err(BadSyntax)
        else
          var name := rest[2..close];
          if name !in section then Err(MissingOption(name))
          else
            var value :- if '%' in section[name] then Interpolate(section, section[name], depth + 1)
                         else Ok(section[name]);
            var tail :- Interpolate(section, rest[close + 2..], depth);
            Ok(value + tail)
      else Err(BadSyntax)
  }

  /** The text `%(name)s`. */
  function Reference(name: string): string
  {
    "%(" + name + ")s"
  }

  /** `s.replace('%', '%%')`: how a literal `%` has to be stored. */
  function Escape(s: string): (e: string)
    ensures |e| >= |s|
  {
    if s == [] then [] else (if s[0] == '%' then "%%" else [s[0]]) + Escape(s[1..])
  }

  /** A read's result with `a` put in front of its text; an error stays as it is. */
  function Prepend(a: string, r: Result<string, InterpolationError>): Result<string, InterpolationError>
  {
    match r
    case Ok(v) => Ok(a + v)
    case Err(e) => Err(e)
  }

  /** A value without `%` reads as it is stored. */
  lemma PlainValue(section: map<string, string>, v: string, depth: nat)
    requires '%' !in v && depth <= MaxDepth
    ensures Interpolate(section, v, depth) == Ok(v)
  {
  }

  /** Up to the first `%`, the text is kept as it is. */
  lemma UpToPercent(section: map<string, string>, rest: string, depth: nat)
    requires depth <= MaxDepth && 0 < Find(rest, '%') < |rest|
    ensures Interpolate(section, rest, depth)
         == Prepend(rest[..Find(rest, '%')], Interpolate(section, rest[Find(rest, '%')..], depth))
  {
  }

  lemma PrependTwice(a: string, b: string, r: Result<string, InterpolationError>)
    ensures Prepend(a + b, r) == Prepend(a, Prepend(b, r))
  {
    if r.Ok? {
      assert a + b + r.value == a + (b + r.value);
    }
  }

  lemma FindAfter(c: char, e: string)
    requires c != '%'
    ensures Find([c] + e, '%') == Find(e, '%') + 1
  {
    assert ([c] + e)[1..] == e;
  }

  /** A first character other than `%` is kept, ahead of what the rest reads as. */
  lemma KeepChar(section: map<string, string>, c: char, e: string, depth: nat)
    requires c != '%' && depth <= MaxDepth
    ensures Interpolate(section, [c] + e, depth) == Prepend([c], Interpolate(section, e, depth))
  {
    var r := [c] + e;
    var q := Find(e, '%');
    FindAfter(c, e);
    if q == |e| {
      PlainValue(section, e, depth);
      PlainValue(section, r, depth);
    } else {
      UpToPercent(section, r, depth);
      assert r[..q + 1] == [c] + e[..q];
      assert r[q + 1..] == e[q..];
      if q > 0 {
        UpToPercent(section, e, depth);
        PrependTwice([c], e[..q], Interpolate(section, e[q..], depth));
      } else {
        assert e[..0] == [] && e[0..] == e;
      }
    }
  }

  /** Text without `%` is kept, ahead of what follows it reads as. */
  lemma {:induction false} PlainPrefix(section: map<string, string>, a: string, t: string, depth: nat)
    requires '%' !in a && depth <= MaxDepth
    ensures Interpolate(section, a + t, depth) == Prepend(a, Interpolate(section, t, depth))
    decreases |a|
  {
    var r := Interpolate(section, t, depth);
    if a == [] {
      assert a + t == t;
      if r.Ok? {
        assert a + r.value == r.value;
      }
    } else {
      assert a + t == [a[0]] + (a[1..] + t);
      KeepChar(section, a[0], a[1..] + t, depth);
      PlainPrefix(section, a[1..], t, depth);
      PrependTwice([a[0]], a[1..], r);
      assert [a[0]] + a[1..] == a;
    }
  }

  /** `%%` reads as one `%`, ahead of what follows. */
  lemma EscapedPercent(section: map<string, string>, t: string, depth: nat)
    requires depth <= MaxDepth
    ensures Interpolate(section, "%%" + t, depth) == Prepend("%", Interpolate(section, t, depth))
  {
    var r := "%%" + t;
    assert r[0] == '%' && r[1] == '%' && r[2..] == t;
  }

  /** What is stored escaped reads back as the original text, whatever it contains. */
  lemma {:induction false} EscapeRoundTrip(section: map<string, string>, s: string, depth: nat)
    requires depth <= MaxDepth
    ensures Interpolate(section, Escape(s), depth) == Ok(s)
    decreases |s|
  {
    if s != [] {
      EscapeRoundTrip(section, s[1..], depth);
      if s[0] == '%' {
        assert Escape(s) == "%%" + Escape(s[1..]);
        EscapedPercent(section, Escape(s[1..]), depth);
      } else {
        assert Escape(s) == [s[0]] + Escape(s[1..]);
        KeepChar(section, s[0], Escape(s[1..]), depth);
      }
      assert [s[0]] + s[1..] == s;
    }
  }

  /** A `%` followed by neither `%` nor `(`, or ending the value, is a syntax error. */
  lemma LonePercent(section: map<string, string>, a: string, b: string, depth: nat)
    requires '%' !in a && depth <= MaxDepth
    requires b == [] || (b[0] != '%' && b[0] != '(')
    ensures Interpolate(section, a + "%" + b, depth) == Err(BadSyntax)
  {
    var t := "%" + b;
    assert a + "%" + b == a + t;
    assert Interpolate(section, t, depth) == Err(BadSyntax);
    PlainPrefix(section, a, t, depth);
  }

  lemma ReferenceShape(name: string, b: string)
    requires name != [] && ')' !in name
    ensures var r := Reference(name) + b;
      && |r| >= 2 && r[0] == '%' && r[1] == '('
      && 2 + Find(r[2..], ')') == |name| + 2
      && r[2..|name| + 2] == name && r[|name| + 3] == 's' && r[|name| + 4..] == b
  {
    var r := Reference(name) + b;
    assert r[2..] == name + ")s" + b;
    assert (name + ")s" + b)[|name|] == ')';
    assert forall j :: 0 <= j < |name| ==> (name + ")s" + b)[j] == name[j];
  }

  /** A reference to a key the section lacks is an error naming that key. */
  lemma MissingReference(section: map<string, string>, name: string, b: string, depth: nat)
    requires name != [] && ')' !in name && name !in section && depth <= MaxDepth
    ensures Interpolate(section, Reference(name) + b, depth) == Err(MissingOption(name))
  {
    ReferenceShape(name, b);
  }

  /** A reference to a value without `%` is replaced by that value. */
  lemma PlainReference(section: map<string, string>, name: string, b: string, depth: nat)
    requires name != [] && ')' !in name && name in section && '%' !in section[name]
    requires depth <= MaxDepth
    ensures Interpolate(section, Reference(name) + b, depth)
         == Prepend(section[name], Interpolate(section, b, depth))
  {
    ReferenceShape(name, b);
  }

  /** A reference to a value with a `%` fails when that value, one level deeper, fails. */
  lemma NestedFailure(section: map<string, string>, name: string, b: string, depth: nat)
    requires name != [] && ')' !in name && name in section && '%' in section[name]
    requires depth <= MaxDepth
    requires Interpolate(section, section[name], depth + 1).Err?
    ensures Interpolate(section, Reference(name) + b, depth)
         == Err(Interpolate(section, section[name], depth + 1).error)
  {
    ReferenceShape(name, b);
  }

  /** A key whose value refers to itself can never be read: the nesting runs past the
      limit. */
  lemma {:induction false} SelfReference(section: map<string, string>, name: string, depth: nat)
    requires name != [] && ')' !in name && name in section && section[name] == Reference(name)
    requires depth >= 1
    ensures Interpolate(section, section[name], depth) == Err(TooDeep)
    decreases MaxDepth + 1 - depth
  {
    if depth <= MaxDepth {
      assert section[name][0] == '%';
      SelfReference(section, name, depth + 1);
      NestedFailure(section, name, "", depth);
      assert Reference(name) + "" == section[name];
    }
  }
}

/** The parts of Python's `str` that the health pipeline relies on: whitespace
    stripping, splitting at a separator, single-character replacement, the
    code-point ordering that `sorted` uses on strings, and decimal digits. */
module Strings {

  import opened Results

  /** Python's `str.isspace` for one character. */
  predicate IsSpace(c: char)
  {
    ('\t' <= c <= '\r') || ('\U{1C}' <= c <= '\U{1F}') || c == ' '
    || c == '\U{85}' || c == '\U{A0}' || c == '\U{1680}'
    || ('\U{2000}' <= c <= '\U{200A}') || c == '\U{2028}' || c == '\U{2029}'
    || c == '\U{202F}' || c == '\U{205F}' || c == '\U{3000}'
  }

  /** `s.lstrip()` */
  function TrimLeft(s: string): (r: string)
    ensures |r| <= |s| && r == s[|s| - |r|..]
    ensures r == [] || !IsSpace(r[0])
    ensures forall i :: 0 <= i < |s| - |r| ==> IsSpace(s[i])
  {
    if s != [] && IsSpace(s[0]) then TrimLeft(s[1..]) else s
  }

  /** `s.rstrip()` */
  function TrimRight(s: string): (r: string)
    ensures |r| <= |s| && r == s[..|r|]
    ensures r == [] || !IsSpace(r[|r| - 1])
    ensures forall i :: |r| <= i < |s| ==> IsSpace(s[i])
  {
    if s != [] && IsSpace(s[|s| - 1]) then TrimRight(s[..|s| - 1]) else s
  }

  /** `s.strip()`: the longest slice of `s` that neither starts nor ends with
      whitespace, obtained by removing only whitespace from both ends. */
  function Strip(s: string): (r: string)
    ensures exists i, j ::
              && 0 <= i <= j <= |s| && r == s[i..j]
              && (forall k :: 0 <= k < i ==> IsSpace(s[k]))
              && (forall k :: j <= k < |s| ==> IsSpace(s[k]))
    ensures r == [] || (!IsSpace(r[0]) && !IsSpace(r[|r| - 1]))
  {
    var l := TrimLeft(s);
    var r := TrimRight(l);
    assert r == s[|s| - |l|..|s| - |l| + |r|];
    r
  }

  /** A string made only of whitespace strips to the empty string, and a string
      holding a non-space character does not. */
  lemma StripEmptyIff(s: string)
    ensures Strip(s) == [] <==> forall k :: 0 <= k < |s| ==> IsSpace(s[k])
  {
  }

  /** Stripping twice is stripping once. */
  lemma {:induction false} StripIdempotent(s: string)
    ensures Strip(Strip(s)) == Strip(s)
  {
    var r := Strip(s);
    assert TrimLeft(r) == r;
    assert TrimRight(r) == r;
  }

  /** `sep.join(parts)` for a one-character separator. */
  function Join(parts: seq<string>, sep: char): (r: string)
    ensures parts != [] ==> |r| + 1 >= |parts|
  {
    if parts == [] then ""
    else if |parts| == 1 then parts[0]
    else parts[0] + [sep] + Join(parts[1..], sep)
  }

  /** `s.split(sep)` for a one-character separator: the pieces between
      separators, including empty ones, never fewer than one. */
  function Split(s: string, sep: char): (parts: seq<string>)
    ensures |parts| >= 1
    ensures forall i :: 0 <= i < |parts| ==> sep !in parts[i]
  {
    if s == [] then [""]
    else
      var rest := Split(s[1..], sep);
      if s[0] == sep then [""] + rest
      else [[s[0]] + rest[0]] + rest[1..]
  }

  /** Splitting and joining at the same separator gives the input back. */
  lemma {:induction false} JoinSplit(s: string, sep: char)
    ensures Join(Split(s, sep), sep) == s
  {
    if s != [] {
      var rest := Split(s[1..], sep);
      JoinSplit(s[1..], sep);
      if s[0] == sep {
        assert Split(s, sep)[1..] == rest;
      } else {
        var parts := Split(s, sep);
        if |rest| == 1 {
          assert parts == [[s[0]] + rest[0]];
        } else {
          assert parts[1..] == rest[1..];
          assert Join(rest, sep) == rest[0] + [sep] + Join(rest[1..], sep);
        }
      }
    }
  }

  /** Joining separator-free pieces and splitting again gives the pieces back:
      `Split` is the inverse of `Join`. */
  lemma {:induction false} SplitJoin(parts: seq<string>, sep: char)
    requires parts != []
    requires forall i :: 0 <= i < |parts| ==> sep !in parts[i]
    ensures Split(Join(parts, sep), sep) == parts
  {
    if |parts| == 1 {
      SplitNoSeparator(parts[0], sep);
    } else {
      SplitJoin(parts[1..], sep);
      SplitPrefix(parts[0], Join(parts[1..], sep), sep);
      assert parts == [parts[0]] + parts[1..];
    }
  }

  lemma {:induction false} SplitNoSeparator(s: string, sep: char)
    requires sep !in s
    ensures Split(s, sep) == [s]
  {
    if s != [] {
      SplitNoSeparator(s[1..], sep);
      assert [s[0]] + s[1..] == s;
    }
  }

  lemma {:induction false} SplitPrefix(p: string, t: string, sep: char)
    requires sep !in p
    ensures Split(p + [sep] + t, sep) == [p] + Split(t, sep)
  {
    if p == [] {
      assert p + [sep] + t == [sep] + t;
      assert ([sep] + t)[1..] == t;
    } else {
      assert (p + [sep] + t)[1..] == p[1..] + [sep] + t;
      SplitPrefix(p[1..], t, sep);
      assert [p[0]] + p[1..] == p;
    }
  }

  /** `s.split(c, 1)` when `c` occurs in `s`: the text before the first `c`
      and everything after it. */
  function Partition(s: string, c: char): (r: (string, string))
    requires c in s
    ensures r.0 + [c] + r.1 == s
    ensures c !in r.0
  {
    if s[0] == c then ("", s[1..])
    else
      var (a, b) := Partition(s[1..], c);
      assert s == [s[0]] + (a + [c] + b);
      ([s[0]] + a, b)
  }

  /** `Partition` splits at the first occurrence of `c` and nowhere else. */
  lemma {:induction false} PartitionFirst(a: string, b: string, c: char)
    requires c !in a
    ensures Partition(a + [c] + b, c) == (a, b)
  {
    if a == [] {
      assert (a + [c] + b)[1..] == b;
    } else {
      assert (a + [c] + b)[1..] == a[1..] + [c] + b;
      PartitionFirst(a[1..], b, c);
      assert [a[0]] + a[1..] == a;
    }
  }

  /** `s.replace(c, with)` for a single-character pattern. */
  function ReplaceChar(s: string, c: char, with: string): (r: string)
    ensures c !in with ==> c !in r
    ensures forall x :: x in r ==> x in s || x in with
  {
    if s == [] then ""
    else (if s[0] == c then with else [s[0]]) + ReplaceChar(s[1..], c, with)
  }

  /** Python orders strings by comparing code points from the left; a proper
      prefix comes first. */
  predicate Less(a: string, b: string)
  {
    if a == [] then b != []
    else if b == [] then false
    else a[0] < b[0] || (a[0] == b[0] && Less(a[1..], b[1..]))
  }

  lemma {:induction false} LessIrreflexive(a: string)
    ensures !Less(a, a)
  {
    if a != [] { LessIrreflexive(a[1..]); }
  }

  lemma {:induction false} LessAsymmetric(a: string, b: string)
    ensures Less(a, b) ==> !Less(b, a)
  {
    if a != [] && b != [] && a[0] == b[0] { LessAsymmetric(a[1..], b[1..]); }
  }

  lemma {:induction false} LessTransitive(a: string, b: string, c: string)
    requires Less(a, b) && Less(b, c)
    ensures Less(a, c)
  {
    if a != [] && a[0] == b[0] && b[0] == c[0] {
      LessTransitive(a[1..], b[1..], c[1..]);
    }
  }

  lemma {:induction false} LessTotal(a: string, b: string)
    ensures a == b || Less(a, b) || Less(b, a)
  {
    if a != [] && b != [] && a[0] == b[0] {
      LessTotal(a[1..], b[1..]);
      if a[1..] == b[1..] {
        assert a == [a[0]] + a[1..] && b == [b[0]] + b[1..];
      }
    }
  }

  /** Strictly ascending, hence also free of duplicates. */
  predicate Ascending(names: seq<string>)
  {
    forall i, j :: 0 <= i < j < |names| ==> Less(names[i], names[j])
  }

  lemma AscendingDistinct(names: seq<string>)
    requires Ascending(names)
    ensures forall i, j :: 0 <= i < |names| && 0 <= j < |names| && i != j ==> names[i] != names[j]
  {
    forall i, j | 0 <= i < |names| && 0 <= j < |names| && i != j
      ensures names[i] != names[j]
    {
      LessIrreflexive(names[i]);
    }
  }

  ghost predicate IsLeast(m: string, names: set<string>)
  {
    m in names && forall n :: n in names && n != m ==> Less(m, n)
  }

  lemma {:induction false} LeastExists(names: set<string>)
    requires names != {}
    ensures exists m :: IsLeast(m, names)
    decreases |names|
  {
    var x :| x in names;
    if names == {x} {
      assert IsLeast(x, names);
    } else {
      var rest := names - {x};
      LeastExists(rest);
      var m :| IsLeast(m, rest);
      LessTotal(x, m);
      if Less(x, m) {
        forall n | n in names && n != x ensures Less(x, n) {
          if n != m { LessTransitive(x, m, n); }
        }
        assert IsLeast(x, names);
      } else {
        assert IsLeast(m, names);
      }
    }
  }

  /** The smallest name of a non-empty set. */
  function Least(names: set<string>): (m: string)
    requires names != {}
    ensures IsLeast(m, names)
  {
    LeastExists(names);
    forall a, b ensures Less(a, b) ==> !Less(b, a) { LessAsymmetric(a, b); }
    var m :| m in names && forall n :: n in names && n != m ==> Less(m, n);
    m
  }

  /** Python's `sorted` applied to a set of strings: every element once, in
      ascending order. */
  function SortedNames(names: set<string>): (r: seq<string>)
    ensures |r| == |names|
    ensures forall n :: n in names <==> n in r
    ensures Ascending(r)
    decreases |names|
  {
    if names == {} then []
    else
      var m := Least(names);
      var rest := SortedNames(names - {m});
      assert forall j :: 0 <= j < |rest| ==> Less(m, rest[j]) by {
        forall j | 0 <= j < |rest| ensures Less(m, rest[j]) {
          assert rest[j] in names - {m};
        }
      }
      [m] + rest
  }

  /** The sorted listing depends on the set of names alone: any strictly
      ascending sequence holding exactly those names is that listing. */
  lemma {:induction false} SortedNamesUnique(r: seq<string>, names: set<string>)
    requires Ascending(r)
    requires forall n :: n in names <==> n in r
    ensures r == SortedNames(names)
    decreases |r|
  {
    if r == [] {
      assert names == {};
    } else {
      HeadIsLeast(r, names);
      var m := Least(names);
      var tail := r[1..];
      TailNames(r, names);
      SortedNamesUnique(tail, names - {m});
      assert r == [m] + tail;
    }
  }

  /** The first name of an ascending listing is the least of its names. */
  lemma HeadIsLeast(r: seq<string>, names: set<string>)
    requires r != [] && Ascending(r)
    requires forall n :: n in names <==> n in r
    ensures names != {} && Least(names) == r[0]
  {
    assert r[0] in names;
    forall n | n in names && n != r[0] ensures Less(r[0], n) {
      var j :| 0 <= j < |r| && r[j] == n;
    }
    var m := Least(names);
    LessAsymmetric(m, r[0]);
  }

  /** Taking the first name off an ascending listing takes it off its set. */
  lemma TailNames(r: seq<string>, names: set<string>)
    requires r != [] && Ascending(r)
    requires forall n :: n in names <==> n in r
    ensures Ascending(r[1..])
    ensures forall n :: n in names - {r[0]} <==> n in r[1..]
  {
    var tail := r[1..];
    forall n ensures n in names - {r[0]} <==> n in tail {
      if n in tail {
        var j :| 0 <= j < |tail| && tail[j] == n;
        LessIrreflexive(r[0]);
        assert Less(r[0], r[j + 1]);
      }
      if n in names - {r[0]} {
        var j :| 0 <= j < |r| && r[j] == n;
        assert j != 0;
        assert tail[j - 1] == n;
      }
    }
  }

  predicate IsDigit(c: char)
  {
    '0' <= c <= '9'
  }

  predicate AllDigits(s: string)
  {
    forall i :: 0 <= i < |s| ==> IsDigit(s[i])
  }

  /** The value of a string of decimal digits, most significant first. */
  function DigitsValue(s: string): nat
    requires AllDigits(s)
  {
    if s == [] then 0
    else 10 * DigitsValue(s[..|s| - 1]) + (s[|s| - 1] as int - '0' as int)
  }

  /** Python's `str(n)` for a natural number. */
  function NatToString(n: nat): (r: string)
    ensures r != [] && AllDigits(r)
    ensures DigitsValue(r) == n
  {
    var d := ['0' + (n % 10) as char];
    if n < 10 then d
    else
      var r := NatToString(n / 10) + d;
      assert r[..|r| - 1] == NatToString(n / 10);
      r
  }

  /** Python's `str(i)` for an integer. */
  function IntToString(i: int): (r: string)
    ensures r != []
    ensures i < 0 ==> r[0] == '-' && AllDigits(r[1..]) && DigitsValue(r[1..]) == -i
    ensures i >= 0 ==> AllDigits(r) && DigitsValue(r) == i
  {
    if i < 0 then "-" + NatToString(-i) else NatToString(i)
  }

  /** The decimal text of an integer holds digits and at most a minus sign. */
  lemma IntTextChars(i: int)
    ensures forall c :: c in IntToString(i) ==> c == '-' || IsDigit(c)
  {
    var r := IntToString(i);
    forall c | c in r ensures c == '-' || IsDigit(c) {
      var k :| 0 <= k < |r| && r[k] == c;
      if i < 0 && k > 0 {
        assert r[k] == r[1..][k - 1];
      }
    }
  }

  function Pow10(k: nat): (p: nat)
    ensures p >= 1
  {
    if k == 0 then 1 else 10 * Pow10(k - 1)
  }

  /** The numeric text Python's `float()` accepts in its plain decimal form:
      surrounding whitespace, an optional sign, digits with an optional
      fraction, at least one digit in all. Its value is exact. */
  function ParseDecimal(s: string): (r: Option<real>)
  {
    ParseSigned(Strip(s))
  }

  function ParseSigned(t: string): (r: Option<real>)
  {
    if t != [] && t[0] == '-' then
      match ParseUnsigned(t[1..])
      case Some(v) => Some(-v)
      case None => None
    else if t != [] && t[0] == '+' then ParseUnsigned(t[1..])
    else ParseUnsigned(t)
  }

  /** Digits with at most one point among them, at least one digit in all. */
  function ParseUnsigned(body: string): (r: Option<real>)
  {
    Scan(body, 0, 0, false, false)
  }

  /** Reads `rest` left to right. `acc` is the value of the digits read so
      far, `scale` how many of them follow the point, `point` whether the
      point was read and `digit` whether any digit was. */
  function Scan(rest: string, acc: nat, scale: nat, point: bool, digit: bool): (r: Option<real>)
  {
    if rest == [] then
      if digit then Some(acc as real / Pow10(scale) as real) else None
    else if IsDigit(rest[0]) then
      Scan(rest[1..], 10 * acc + (rest[0] as int - '0' as int), if point then scale + 1 else scale, point, true)
    else if rest[0] == '.' && !point then
      Scan(rest[1..], acc, scale, true, digit)
    else None
  }

  /** Reading a run of digits shifts them into the accumulated value. */
  lemma {:induction false} ScanDigits(ds: string, rest: string, acc: nat, scale: nat, point: bool, digit: bool)
    requires AllDigits(ds)
    ensures Scan(ds + rest, acc, scale, point, digit)
            == Scan(rest, acc * Pow10(|ds|) + DigitsValue(ds), if point then scale + |ds| else scale,
                    point, digit || ds != [])
    decreases |ds|
  {
    if ds == [] {
      assert ds + rest == rest;
    } else {
      var front := ds[..|ds| - 1];
      var c := ds[|ds| - 1];
      assert ds + rest == front + ([c] + rest);
      ScanDigits(front, [c] + rest, acc, scale, point, digit);
      var shifted := acc * Pow10(|front|) + DigitsValue(front);
      assert ([c] + rest)[1..] == rest;
      ShiftDigit(acc, DigitsValue(front), Pow10(|front|), c as int - '0' as int);
      assert 10 * shifted + (c as int - '0' as int) == acc * Pow10(|ds|) + DigitsValue(ds);
    }
  }

  lemma ShiftDigit(a: int, b: int, p: int, d: int)
    ensures 10 * (a * p + b) + d == a * (10 * p) + (10 * b + d)
  {
  }

  /** The value of a digit string split in two. */
  lemma {:induction false} DigitsConcat(a: string, b: string)
    requires AllDigits(a) && AllDigits(b)
    ensures AllDigits(a + b)
    ensures DigitsValue(a + b) == DigitsValue(a) * Pow10(|b|) + DigitsValue(b)
    decreases |b|
  {
    if b == [] {
      assert a + b == a;
    } else {
      var front := b[..|b| - 1];
      var ab := a + b;
      assert ab[..|ab| - 1] == a + front;
      assert ab[|ab| - 1] == b[|b| - 1];
      DigitsConcat(a, front);
      ShiftDigit(DigitsValue(a), DigitsValue(front), Pow10(|front|), b[|b| - 1] as int - '0' as int);
    }
  }

  /** `float(str(i))` is `i`: the decimal text of an integer reads back as
      that integer. */
  lemma IntTextIsDecimal(i: int)
    ensures ParseDecimal(IntToString(i)) == Some(i as real)
  {
    if i < 0 {
      NegativeIntText(i);
    } else {
      NaturalIntText(i);
    }
  }

  lemma NegativeIntText(i: int)
    requires i < 0
    ensures ParseDecimal(IntToString(i)) == Some(i as real)
  {
    var body := NatToString(-i);
    DigitsParse(body);
    NegativeText(body, (-i) as real);
    assert IntToString(i) == "-" + body;
  }

  lemma NaturalIntText(i: int)
    requires i >= 0
    ensures ParseDecimal(IntToString(i)) == Some(i as real)
  {
    var body := NatToString(i);
    DigitsParse(body);
    PositiveText(body, i as real);
    assert IntToString(i) == body;
  }

  lemma DigitsParse(ds: string)
    requires ds != [] && AllDigits(ds)
    ensures ParseUnsigned(ds) == Some(DigitsValue(ds) as real)
    ensures ParseSigned(ds) == ParseUnsigned(ds)
  {
    assert ds + "" == ds;
    ScanDigits(ds, "", 0, 0, false, false);
  }

  /** Text without space at either end is parsed as it stands. */
  lemma ParseNoSpace(t: string)
    requires t == [] || (!IsSpace(t[0]) && !IsSpace(t[|t| - 1]))
    ensures ParseDecimal(t) == ParseSigned(t)
  {
    NoSpaceStrip(t);
  }

  /** Unsigned numeric text, digit first and without trailing space, read
      with or without a leading minus sign. */
  lemma SignedText(negative: bool, body: string, v: real)
    requires body != [] && IsDigit(body[0]) && !IsSpace(body[|body| - 1])
    requires ParseUnsigned(body) == Some(v)
    ensures ParseDecimal((if negative then "-" else "") + body) == Some(if negative then -v else v)
  {
    var t := (if negative then "-" else "") + body;
    if negative {
      assert t == "-" + body;
      NegativeText(body, v);
    } else {
      assert t == body;
      PositiveText(body, v);
    }
  }

  lemma NegativeText(body: string, v: real)
    requires body != [] && !IsSpace(body[|body| - 1])
    requires ParseUnsigned(body) == Some(v)
    ensures ParseDecimal("-" + body) == Some(-v)
  {
    var t := "-" + body;
    assert t[|t| - 1] == body[|body| - 1];
    ParseNoSpace(t);
    NegativeParse(body);
  }

  lemma PositiveText(body: string, v: real)
    requires body != [] && IsDigit(body[0]) && !IsSpace(body[|body| - 1])
    requires ParseUnsigned(body) == Some(v)
    ensures ParseDecimal(body) == Some(v)
  {
    ParseNoSpace(body);
  }

  /** A leading minus sign negates the value of what follows it. */
  lemma NegativeParse(body: string)
    ensures ParseSigned("-" + body)
            == match ParseUnsigned(body) case Some(v) => Some(-v) case None => None
  {
    assert ("-" + body)[1..] == body;
  }

  /** Stripping looks at the two ends only. */
  lemma NoSpaceStrip(s: string)
    requires s == [] || (!IsSpace(s[0]) && !IsSpace(s[|s| - 1]))
    ensures Strip(s) == s
  {
  }
}

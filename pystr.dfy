// The Python string built-ins the application relies on, restated on `seq<char>`:
// whitespace and word-character classes (ASCII only), case mapping, prefix and
// suffix tests, strip, split, replace, join, `int()` parsing and `str()` of an int.
module PyStr {
  import opened Wrappers

  /** `str.isspace()` restricted to ASCII: space, \t \n \v \f \r and \x1c-\x1f. */
  predicate IsSpace(c: char)
  {
    c == ' ' || ('\t' <= c <= '\r') || (28 <= c as int <= 31)
  }

  predicate IsDigit(c: char) { '0' <= c <= '9' }

  /** The `\w` class of Python's `re` restricted to ASCII. */
  predicate IsWordChar(c: char)
  {
    ('a' <= c <= 'z') || ('A' <= c <= 'Z') || IsDigit(c) || c == '_'
  }

  function LowerChar(c: char): char
  {
    if 'A' <= c <= 'Z' then (c as int + 32) as char else c
  }

  function UpperChar(c: char): char
  {
    if 'a' <= c <= 'z' then (c as int - 32) as char else c
  }

  /** `str.lower()` on ASCII letters. */
  function Lower(s: string): (r: string)
    ensures |r| == |s|
    ensures forall i :: 0 <= i < |s| ==> r[i] == LowerChar(s[i])
  {
    if s == [] then [] else [LowerChar(s[0])] + Lower(s[1..])
  }

  /** `str.upper()` on ASCII letters. */
  function Upper(s: string): (r: string)
    ensures |r| == |s|
    ensures forall i :: 0 <= i < |s| ==> r[i] == UpperChar(s[i])
  {
    if s == [] then [] else [UpperChar(s[0])] + Upper(s[1..])
  }

  predicate StartsWith(s: string, p: string)
  {
    |p| <= |s| && s[..|p|] == p
  }

  predicate EndsWith(s: string, p: string)
  {
    |p| <= |s| && s[|s| - |p|..] == p
  }

  /** The substring test `p in s`. */
  predicate Contains(s: string, p: string)
    decreases |s|
  {
    StartsWith(s, p) || (|s| > 0 && Contains(s[1..], p))
  }

  /** `str.lstrip()` / `str.rstrip()` / `str.strip()` with no argument. */
  function LStrip(s: string): (r: string)
    ensures |r| <= |s| && r == s[|s| - |r|..]
    ensures r == [] || !IsSpace(r[0])
  {
    if |s| > 0 && IsSpace(s[0]) then LStrip(s[1..]) else s
  }

  function RStrip(s: string): (r: string)
    ensures |r| <= |s| && r == s[..|r|]
    ensures r == [] || !IsSpace(r[|r| - 1])
  {
    if |s| > 0 && IsSpace(s[|s| - 1]) then RStrip(s[..|s| - 1]) else s
  }

  function Strip(s: string): (r: string)
  {
    LStrip(RStrip(s))
  }

  /** `str.rstrip(c)` for a single character. */
  function RStripChar(s: string, c: char): (r: string)
    ensures |r| <= |s| && r == s[..|r|]
    ensures r == [] || r[|r| - 1] != c
    ensures forall i :: |r| <= i < |s| ==> s[i] == c
  {
    if |s| > 0 && s[|s| - 1] == c then RStripChar(s[..|s| - 1], c) else s
  }

  /** Number of characters of `s` that belong to `d`. */
  function CountIn(s: string, d: set<char>): nat
  {
    if s == [] then 0 else (if s[0] in d then 1 else 0) + CountIn(s[1..], d)
  }

  /**
   * `re.split("[...]", s)` for a character class `d`; with a single character it is
   * also `str.split(c)`. Empty pieces are kept.
   */
  function Split(s: string, d: set<char>): (r: seq<string>)
    ensures |r| == CountIn(s, d) + 1
    ensures forall k, i :: 0 <= k < |r| && 0 <= i < |r[k]| ==> r[k][i] !in d
  {
    if s == [] then [[]]
    else if s[0] in d then [[]] + Split(s[1..], d)
    else
      var rest := Split(s[1..], d);
      [[s[0]] + rest[0]] + rest[1..]
  }

  /** `sep.join(parts)`. */
  function Join(parts: seq<string>, sep: string): string
  {
    if |parts| == 0 then []
    else if |parts| == 1 then parts[0]
    else parts[0] + sep + Join(parts[1..], sep)
  }

  /** `s.replace(p, q)` for a non-empty `p`: every non-overlapping occurrence, left to right. */
  function ReplaceAll(s: string, p: string, q: string): string
    requires |p| > 0
    decreases |s|
  {
    if |s| < |p| then s
    else if s[..|p|] == p then q + ReplaceAll(s[|p|..], p, q)
    else [s[0]] + ReplaceAll(s[1..], p, q)
  }

  /** `s.replace(p, q, 1)`: the leftmost occurrence only (an empty `p` matches at 0). */
  function ReplaceFirst(s: string, p: string, q: string): string
    decreases |s|
  {
    if StartsWith(s, p) then q + s[|p|..]
    else if s == [] then s
    else [s[0]] + ReplaceFirst(s[1..], p, q)
  }

  /** The digit string of a natural number, as `str(n)` writes it. */
  function NatToString(n: nat): (r: string)
    ensures |r| > 0
    ensures forall i :: 0 <= i < |r| ==> IsDigit(r[i])
    decreases n
  {
    if n < 10 then [('0' as int + n) as char]
    else NatToString(n / 10) + [('0' as int + n % 10) as char]
  }

  /** `str(i)` for an int. */
  function IntToString(i: int): string
  {
    if i < 0 then "-" + NatToString(-i) else NatToString(i)
  }

  /** The format spec `:02` (also `:02d`) applied to an int: zero-filled to width 2 after the sign. */
  function ZeroPad2(i: int): (r: string)
    ensures 0 <= i < 10 ==> r == "0" + NatToString(i)
    ensures i >= 10 || i < 0 ==> r == IntToString(i)
  {
    if 0 <= i < 10 then "0" + NatToString(i) else IntToString(i)
  }

  /** The body `int()` accepts after an optional sign: digits, each `_` between two digits. */
  predicate IsDigitRun(t: string)
    decreases |t|
  {
    |t| > 0 && IsDigit(t[|t| - 1]) &&
    (|t| == 1 || (if t[|t| - 2] == '_' then IsDigitRun(t[..|t| - 2]) else IsDigitRun(t[..|t| - 1])))
  }

  /** The decimal value of a digit run, underscores ignored. */
  function DigitsValue(t: string): nat
  {
    if t == [] then 0
    else if t[|t| - 1] == '_' then DigitsValue(t[..|t| - 1])
    else
      var d := t[|t| - 1] as int - '0' as int;
      DigitsValue(t[..|t| - 1]) * 10 + (if 0 <= d then d else 0)
  }

  /**
   * `int(s)` for a str: surrounding whitespace is ignored, an optional sign, then a
   * digit run; anything else raises ValueError (here None).
   */
  function ParseInt(s: string): (r: Option<int>)
  {
    ParseSignedRun(Strip(s))
  }

  /** An optional sign, then a digit run, with no surrounding whitespace. */
  function ParseSignedRun(t: string): (r: Option<int>)
  {
    if |t| > 0 && (t[0] == '+' || t[0] == '-') then
      if IsDigitRun(t[1..]) then
        var v: int := DigitsValue(t[1..]);
        Some(if t[0] == '-' then -v else v)
      else None
    else if IsDigitRun(t) then Some(DigitsValue(t))
    else None
  }

  /** The index of the first character of t that is in d, or |t| when there is none. */
  function FirstIn(t: string, d: set<char>): (i: nat)
    ensures i <= |t| && (i < |t| ==> t[i] in d)
    ensures forall k :: 0 <= k < i ==> t[k] !in d
    decreases |t|
  {
    if t == [] || t[0] in d then 0 else 1 + FirstIn(t[1..], d)
  }

  /** The number of digits of a digit run, its underscores not counted. */
  function DigitCount(t: string): nat
  {
    if t == [] then 0 else DigitCount(t[..|t| - 1]) + (if t[|t| - 1] == '_' then 0 else 1)
  }

  function Pow10(n: nat): (p: nat)
    ensures p >= 1
  {
    if n == 0 then 1 else 10 * Pow10(n - 1)
  }

  /** `10.0 ** x` for an int exponent. */
  function Scale(x: int): (r: real)
    ensures r > 0.0
  {
    if x >= 0 then Pow10(x) as real else 1.0 / Pow10(-x) as real
  }

  /** An unsigned decimal: a digit run, or digit runs on either side of one point, at least one of them present. */
  function ParseMantissa(t: string): Option<real>
  {
    var p := FirstIn(t, {'.'});
    if p == |t| then
      if IsDigitRun(t) then Some(DigitsValue(t) as real) else None
    else
      var a, b := t[..p], t[p + 1..];
      if (a == [] || IsDigitRun(a)) && (b == [] || IsDigitRun(b)) && (a != [] || b != []) then
        Some(DigitsValue(a) as real + DigitsValue(b) as real / Pow10(DigitCount(b)) as real)
      else None
  }

  /** An unsigned decimal, then optionally `e` or `E` and a signed digit run scaling it by that power of ten. */
  function ParseUnsignedFloat(t: string): Option<real>
  {
    var e := FirstIn(t, {'e', 'E'});
    if e == |t| then ParseMantissa(t)
    else
      match (ParseMantissa(t[..e]), ParseSignedRun(t[e + 1..]))
      case (Some(m), Some(x)) => Some(m * Scale(x))
      case _ => None
  }

  /**
   * `float(s)` for a str on the finite decimals: surrounding whitespace is ignored, then an
   * optional sign and an unsigned decimal with an optional exponent; anything else raises
   * ValueError (here None).
   */
  function ParseFloat(s: string): (r: Option<real>)
  {
    ParseSignedFloat(Strip(s))
  }

  /** An optional sign, then an unsigned decimal, with no surrounding whitespace. */
  function ParseSignedFloat(t: string): (r: Option<real>)
  {
    if |t| > 0 && (t[0] == '+' || t[0] == '-') then
      match ParseUnsignedFloat(t[1..])
      case Some(x) => Some(if t[0] == '-' then -x else x)
      case None => None
    else ParseUnsignedFloat(t)
  }

  /** Python's `s[i]` on a list, negative indices counting from the end. */
  function PyIndex<T>(s: seq<T>, i: int): (r: Option<T>)
    ensures r.Some? <==> -|s| <= i < |s|
    ensures 0 <= i < |s| ==> r == Some(s[i])
    ensures -|s| <= i < 0 ==> r == Some(s[|s| + i])
  {
    if 0 <= i < |s| then Some(s[i])
    else if -|s| <= i < 0 then Some(s[|s| + i])
    else None
  }

  lemma {:induction false} DigitsValueOfNatToString(n: nat)
    ensures DigitsValue(NatToString(n)) == n
    decreases n
  {
    if n >= 10 {
      var p := NatToString(n / 10);
      var s := p + [('0' as int + n % 10) as char];
      assert s[..|s| - 1] == p;
      DigitsValueOfNatToString(n / 10);
    }
  }

  lemma {:induction false} NatToStringIsDigitRun(n: nat)
    ensures IsDigitRun(NatToString(n))
    decreases n
  {
    if n >= 10 {
      NatToStringIsDigitRun(n / 10);
      var p := NatToString(n / 10);
      var s := p + [('0' as int + n % 10) as char];
      assert s[..|s| - 1] == p;
      assert s[|s| - 2] == p[|p| - 1];
    }
  }

  lemma StripNoSpaceEnds(s: string)
    requires |s| > 0 && !IsSpace(s[0]) && !IsSpace(s[|s| - 1])
    ensures Strip(s) == s
  {
  }

  /** A digit run holds only digits and underscores. */
  lemma {:induction false} DigitRunChars(t: string)
    requires IsDigitRun(t)
    ensures forall k :: 0 <= k < |t| ==> IsDigit(t[k]) || t[k] == '_'
    decreases |t|
  {
    if |t| > 1 {
      var init := if t[|t| - 2] == '_' then t[..|t| - 2] else t[..|t| - 1];
      DigitRunChars(init);
      assert forall k :: 0 <= k < |init| ==> t[k] == init[k];
    }
  }

  /** With no point and no exponent, the float parser reads a digit run as `int()` does. */
  lemma DigitRunFloat(t: string)
    requires IsDigitRun(t)
    ensures ParseUnsignedFloat(t) == Some(DigitsValue(t) as real)
  {
    DigitRunChars(t);
    assert FirstIn(t, {'e', 'E'}) == |t|;
    assert FirstIn(t, {'.'}) == |t|;
  }

  /** Every string `int()` reads, `float()` reads to the same value. */
  lemma ParseFloatOfInt(s: string)
    requires ParseInt(s).Some?
    ensures ParseFloat(s) == Some(ParseInt(s).value as real)
  {
    SignedRunFloat(Strip(s));
  }

  /** Without surrounding whitespace: a signed digit run reads the same under both parsers. */
  lemma SignedRunFloat(t: string)
    requires ParseSignedRun(t).Some?
    ensures ParseSignedFloat(t) == Some(ParseSignedRun(t).value as real)
  {
    if |t| > 0 && (t[0] == '+' || t[0] == '-') {
      DigitRunFloat(t[1..]);
    } else {
      DigitRunFloat(t);
    }
  }

  /** `float()` reads digits, a point and digits as the integer part plus the digits after the point scaled down. */
  lemma PointDecimal(t: string, p: nat)
    requires p < |t| && t[p] == '.' && IsDigitRun(t[..p]) && IsDigitRun(t[p + 1..])
    ensures ParseUnsignedFloat(t) ==
      Some(DigitsValue(t[..p]) as real + DigitsValue(t[p + 1..]) as real / Pow10(DigitCount(t[p + 1..])) as real)
  {
    assert FirstIn(t, {'e', 'E'}) == |t| && FirstIn(t, {'.'}) == p by {
      PointChars(t, p);
      FirstInAt(t, {'e', 'E'}, |t|);
      FirstInAt(t, {'.'}, p);
    }
  }

  /** Around the point there are only digits and underscores. */
  lemma PointChars(t: string, p: nat)
    requires p < |t| && t[p] == '.' && IsDigitRun(t[..p]) && IsDigitRun(t[p + 1..])
    ensures forall k :: 0 <= k < |t| && k != p ==> IsDigit(t[k]) || t[k] == '_'
  {
    DigitRunChars(t[..p]);
    DigitRunChars(t[p + 1..]);
    assert forall k :: 0 <= k < p ==> t[k] == t[..p][k];
    assert forall k :: p < k < |t| ==> t[k] == t[p + 1..][k - p - 1];
  }

  /** A fraction `float()` reads and `int()` refuses. */
  lemma ParseFloatFraction()
    ensures ParseFloat("2.5") == Some(2.5) && ParseInt("2.5") == None
  {
    var t := "2.5";
    assert Strip(t) == t by {
      StripNoSpaceEnds(t);
    }
    assert ParseFloat(t) == Some(2.5) by {
      FractionValue(t);
    }
    assert ParseInt(t) == None by {
      assert !IsDigitRun(t);
    }
  }

  /** The unsigned decimal `2.5`, read through its point. */
  lemma FractionValue(t: string)
    requires t == "2.5"
    ensures ParseSignedFloat(t) == Some(2.5)
  {
    var a, b := t[..1], t[2..];
    assert a == "2" && b == "5";
    assert DigitsValue(a) == 2 by {
      assert a[..0] == [];
    }
    assert DigitsValue(b) == 5 && DigitCount(b) == 1 by {
      assert b[..0] == [];
    }
    assert IsDigitRun(a) && IsDigitRun(b);
    PointDecimal(t, 1);
  }

  /** The first character in d sits at j when none before j is in d and the one at j is (or j is the end). */
  lemma FirstInAt(t: string, d: set<char>, j: nat)
    requires j <= |t| && (j < |t| ==> t[j] in d)
    requires forall k :: 0 <= k < j ==> t[k] !in d
    ensures FirstIn(t, d) == j
  {
    var i := FirstIn(t, d);
    if i < j {
      assert false;
    } else if j < i {
      assert false;
    }
  }

  /** `int(str(i)) == i`: the parser inverts the printer. */
  lemma ParseIntOfIntToString(i: int)
    ensures ParseInt(IntToString(i)) == Some(i)
  {
    if i < 0 {
      ParseNegative(i);
    } else {
      ParseNatural(i);
    }
  }

  lemma ParseNatural(n: nat)
    ensures ParseInt(IntToString(n)) == Some(n)
  {
    var d := NatToString(n);
    assert IntToString(n) == d;
    NatToStringIsDigitRun(n);
    DigitsValueOfNatToString(n);
    StripNoSpaceEnds(d);
    ParseStripped(d);
    UnsignedRun(d);
  }

  lemma ParseNegative(i: int)
    requires i < 0
    ensures ParseInt(IntToString(i)) == Some(i)
  {
    var n: nat := -i;
    var d := NatToString(n);
    var t := "-" + d;
    assert IntToString(i) == t;
    NatToStringIsDigitRun(n);
    DigitsValueOfNatToString(n);
    assert t[|t| - 1] == d[|d| - 1];
    StripNoSpaceEnds(t);
    ParseStripped(t);
    NegativeRun(d);
  }

  /** On a string with no surrounding whitespace `int()` is the sign-and-digits parser. */
  lemma ParseStripped(t: string)
    requires Strip(t) == t
    ensures ParseInt(t) == ParseSignedRun(t)
  {
  }

  /** A digit run with no sign parses to its value. */
  lemma UnsignedRun(d: string)
    requires IsDigitRun(d) && IsDigit(d[0])
    ensures ParseSignedRun(d) == Some(DigitsValue(d))
  {
  }

  /** A minus sign followed by a digit run parses to the negated value. */
  lemma NegativeRun(d: string)
    requires IsDigitRun(d)
    ensures ParseSignedRun("-" + d) == Some(-(DigitsValue(d) as int))
  {
    assert ("-" + d)[1..] == d;
  }

  /** Splitting on one character and joining with it again gives the string back. */
  lemma {:induction false} JoinSplit(s: string, c: char)
    ensures Join(Split(s, {c}), [c]) == s
    decreases |s|
  {
    if s != [] {
      JoinSplit(s[1..], c);
      var rest := Split(s[1..], {c});
      if s[0] != c {
        if |rest| > 1 {
          assert [[s[0]] + rest[0]] + rest[1..] == [[s[0]] + rest[0]] + [rest[1]] + rest[2..];
          assert Join(rest, [c]) == rest[0] + [c] + Join(rest[1..], [c]);
        }
      }
    }
  }

  /** `int()` reads the zero-filled form back: the padding does not change the number. */
  lemma ParseZeroPad2(i: int)
    ensures ParseInt(ZeroPad2(i)) == Some(i)
  {
    if 0 <= i < 10 {
      var t := ZeroPad2(i);
      assert t == ['0', ('0' as int + i) as char];
      assert t[..1] == "0";
      assert IsDigitRun(t[..1]);
      assert DigitsValue(t[..1]) == 0;
      assert IsDigitRun(t);
      assert DigitsValue(t) == i;
      StripNoSpaceEnds(t);
      ParseStripped(t);
      UnsignedRun(t);
    } else {
      ParseIntOfIntToString(i);
    }
  }

  /** A string without a delimiter is one piece. */
  lemma {:induction false} SplitNone(s: string, d: set<char>)
    requires forall i :: 0 <= i < |s| ==> s[i] !in d
    ensures Split(s, d) == [s]
    decreases |s|
  {
    if s != [] {
      SplitNone(s[1..], d);
      assert [s[0]] + s[1..] == s;
    }
  }

  /** Two delimiter-free pieces joined by one delimiter split back into those two pieces. */
  lemma {:induction false} SplitTwo(a: string, c: char, b: string, d: set<char>)
    requires c in d
    requires forall i :: 0 <= i < |a| ==> a[i] !in d
    requires forall i :: 0 <= i < |b| ==> b[i] !in d
    ensures Split(a + [c] + b, d) == [a, b]
    decreases |a|
  {
    var s := a + [c] + b;
    if a == [] {
      assert s == [c] + b;
      assert s[1..] == b;
      SplitNone(b, d);
    } else {
      SplitTwo(a[1..], c, b, d);
      assert s[1..] == a[1..] + [c] + b;
      assert [a[0]] + a[1..] == a;
    }
  }

  /** A string without an occurrence of `p` is left as it is by `replace`. */
  lemma {:induction false} ReplaceAllAbsent(s: string, p: string, q: string)
    requires |p| > 0 && !Contains(s, p)
    ensures ReplaceAll(s, p, q) == s
    decreases |s|
  {
    if |s| >= |p| {
      ReplaceAllAbsent(s[1..], p, q);
      assert [s[0]] + s[1..] == s;
    }
  }

  /** A string that lacks the first character of `p` has no occurrence of `p`. */
  lemma {:induction false} AbsentFirstChar(s: string, p: string)
    requires |p| > 0 && p[0] !in s
    ensures !Contains(s, p)
    decreases |s|
  {
    if |s| > 0 {
      assert s[0] in s;
      assert |p| <= |s| ==> s[..|p|][0] == s[0];
      AbsentFirstChar(s[1..], p);
    }
  }

  /** Replacing one character by another keeps the length and swaps exactly that character. */
  lemma {:induction false} ReplaceCharwise(s: string, a: char, b: char)
    ensures |ReplaceAll(s, [a], [b])| == |s|
    ensures forall i :: 0 <= i < |s| ==> ReplaceAll(s, [a], [b])[i] == if s[i] == a then b else s[i]
    decreases |s|
  {
    if |s| > 0 {
      ReplaceCharwise(s[1..], a, b);
    }
  }

  /** `replace` only writes characters of the string or of the replacement. */
  lemma {:induction false} ReplaceAllChars(s: string, p: string, q: string)
    requires |p| > 0
    ensures forall c :: c in ReplaceAll(s, p, q) ==> c in s || c in q
    decreases |s|
  {
    if |s| >= |p| {
      if s[..|p|] == p {
        ReplaceAllChars(s[|p|..], p, q);
        forall c | c in s[|p|..] ensures c in s {
          var i :| 0 <= i < |s[|p|..]| && s[|p|..][i] == c;
          assert s[|p| + i] == c;
        }
      } else {
        ReplaceAllChars(s[1..], p, q);
        forall c | c in s[1..] ensures c in s {
          var i :| 0 <= i < |s[1..]| && s[1..][i] == c;
          assert s[1 + i] == c;
        }
      }
    }
  }

  /** The same for `replace(p, q, 1)`. */
  lemma {:induction false} ReplaceFirstChars(s: string, p: string, q: string)
    ensures forall c :: c in ReplaceFirst(s, p, q) ==> c in s || c in q
    decreases |s|
  {
    if StartsWith(s, p) {
      forall c | c in s[|p|..] ensures c in s {
        var i :| 0 <= i < |s[|p|..]| && s[|p|..][i] == c;
        assert s[|p| + i] == c;
      }
    } else if s != [] {
      ReplaceFirstChars(s[1..], p, q);
      forall c | c in s[1..] ensures c in s {
        var i :| 0 <= i < |s[1..]| && s[1..][i] == c;
        assert s[1 + i] == c;
      }
    }
  }

  /** A delimiter-free piece followed by a delimiter splits off as the first piece. */
  lemma {:induction false} SplitLine(a: string, c: char, rest: string, d: set<char>)
    requires c in d
    requires forall i :: 0 <= i < |a| ==> a[i] !in d
    ensures Split(a + [c] + rest, d) == [a] + Split(rest, d)
    decreases |a|
  {
    var s := a + [c] + rest;
    if a == [] {
      assert s[1..] == rest;
    } else {
      SplitLine(a[1..], c, rest, d);
      assert s[1..] == a[1..] + [c] + rest;
      assert [a[0]] + a[1..] == a;
    }
  }

  /** No delimiter counted means no delimiter present. */
  lemma {:induction false} CountInZero(s: string, d: set<char>)
    requires CountIn(s, d) == 0
    ensures forall i :: 0 <= i < |s| ==> s[i] !in d
  {
    if s != [] {
      CountInZero(s[1..], d);
      forall i | 0 < i < |s| ensures s[i] !in d {
        assert s[i] == s[1..][i - 1];
      }
    }
  }

  /**
   * The last piece of a split (`s.split(c)[-1]`) is a suffix of `s` that starts at the
   * beginning or right after a delimiter.
   */
  lemma {:induction false} SplitLast(s: string, d: set<char>)
    ensures var parts := Split(s, d); var last := parts[|parts| - 1];
      |last| <= |s| && s[|s| - |last|..] == last && (|last| == |s| || s[|s| - |last| - 1] in d)
  {
    if s != [] {
      var rest := Split(s[1..], d);
      SplitLast(s[1..], d);
      var last := rest[|rest| - 1];
      if s[0] in d {
        assert Split(s, d) == [[]] + rest;
      } else if |rest| == 1 {
        CountInZero(s[1..], d);
        SplitNone(s[1..], d);
        assert Split(s, d) == [[s[0]] + s[1..]];
        assert [s[0]] + s[1..] == s;
      } else {
        SplitKeepsLast(s, d);
        if |last| == |s| - 1 {
          assert last == s[1..];
          CountInNone(s[1..], d);
        }
      }
    }
  }

  lemma SplitKeepsLast(s: string, d: set<char>)
    requires s != [] && s[0] !in d && |Split(s[1..], d)| > 1
    ensures var parts := Split(s, d); var rest := Split(s[1..], d);
      parts[|parts| - 1] == rest[|rest| - 1]
  {
  }

  /** A string without a delimiter counts none. */
  lemma {:induction false} CountInNone(s: string, d: set<char>)
    requires forall i :: 0 <= i < |s| ==> s[i] !in d
    ensures CountIn(s, d) == 0
  {
    if s != [] {
      CountInNone(s[1..], d);
    }
  }
}

// What the search box's parser and query builder guarantee, and where the split on
// "and"/"or" cuts through a value.
module SearchFacts {
  import opened Wrappers
  import PyStr
  import opened Search

  lemma UpperConnective(part: string)
    requires IsConnective(part)
    ensures PyStr.Upper(part) == "AND" || PyStr.Upper(part) == "OR"
  {
    var l := PyStr.Lower(part);
    var u := PyStr.Upper(part);
    forall i | 0 <= i < |part| ensures u[i] == PyStr.UpperChar(l[i]) {
    }
    if l == "and" {
      assert u == [PyStr.UpperChar('a'), PyStr.UpperChar('n'), PyStr.UpperChar('d')];
    } else {
      assert u == [PyStr.UpperChar('o'), PyStr.UpperChar('r')];
    }
  }

  /** One piece keeps the shape and only ever appends to the conditions. */
  lemma StepShape(acc: Parsed, part: string)
    requires WellParsed(acc)
    ensures WellParsed(Step(acc, part))
    ensures var r := Step(acc, part);
      |acc.conditions| <= |r.conditions| && r.conditions[..|acc.conditions|] == acc.conditions
  {
    if IsConnective(part) {
      StepConnective(acc, part);
      UpperConnective(part);
    } else {
      FieldStepShape(acc, part);
      FieldStepAppends(acc, part);
    }
  }

  /** A piece that is not a connective adds conditions only on FIELD_MAP columns. */
  lemma FieldStepShape(acc: Parsed, part: string)
    requires WellParsed(acc) && !IsConnective(part)
    ensures WellParsed(Step(acc, part))
  {
    var m := FieldMatch(PyStr.Strip(part));
    if m.Some? && Column(PyStr.Lower(m.value.0)).Some? {
      var col := Column(PyStr.Lower(m.value.0)).value;
      ColumnKnown(PyStr.Lower(m.value.0));
      AppendedShape(acc, col, m.value.1);
      StepCondition(acc, part, col, m.value.1);
    } else {
      StepIgnored(acc, part);
    }
  }

  lemma AppendedShape(acc: Parsed, col: string, value: string)
    requires WellParsed(acc) && KnownColumn(col)
    ensures WellParsed(acc.(conditions := acc.conditions + [Condition(col, value)]))
  {
    var cs := acc.conditions + [Condition(col, value)];
    forall k | 0 <= k < |cs| ensures KnownColumn(cs[k].column) {
      if k < |acc.conditions| { assert cs[k] == acc.conditions[k]; }
    }
  }

  /** A piece that is not a connective keeps the earlier conditions in place. */
  lemma FieldStepAppends(acc: Parsed, part: string)
    requires !IsConnective(part)
    ensures var r := Step(acc, part);
      |acc.conditions| <= |r.conditions| && r.conditions[..|acc.conditions|] == acc.conditions
  {
    var m := FieldMatch(PyStr.Strip(part));
    if m.Some? && Column(PyStr.Lower(m.value.0)).Some? {
      var col := Column(PyStr.Lower(m.value.0)).value;
      StepCondition(acc, part, col, m.value.1);
      assert (acc.conditions + [Condition(col, m.value.1)])[..|acc.conditions|] == acc.conditions;
    } else {
      StepIgnored(acc, part);
    }
  }

  lemma StepConnective(acc: Parsed, part: string)
    requires IsConnective(part)
    ensures Step(acc, part) == acc.(operator := PyStr.Upper(part))
  {
  }

  lemma StepCondition(acc: Parsed, part: string, col: string, value: string)
    requires !IsConnective(part)
    requires var m := FieldMatch(PyStr.Strip(part));
      m.Some? && Column(PyStr.Lower(m.value.0)) == Some(col) && m.value.1 == value
    ensures Step(acc, part) == acc.(conditions := acc.conditions + [Condition(col, value)])
  {
  }

  lemma StepIgnored(acc: Parsed, part: string)
    requires !IsConnective(part)
    requires var m := FieldMatch(PyStr.Strip(part));
      m.None? || Column(PyStr.Lower(m.value.0)).None?
    ensures Step(acc, part) == acc
  {
  }

  lemma ColumnKnown(field: string)
    requires Column(field).Some?
    ensures KnownColumn(Column(field).value)
  {
  }

  /**
   * Every condition tests one of the four FIELD_MAP columns, conditions are only ever
   * appended (earlier ones stay in place), and the connective is "AND" or "OR".
   */
  lemma {:induction false} ParseFromShape(pieces: seq<string>, i: nat, acc: Parsed)
    requires i <= |pieces| && WellParsed(acc)
    ensures var r := ParseFrom(pieces, i, acc);
      WellParsed(r) && |acc.conditions| <= |r.conditions| && r.conditions[..|acc.conditions|] == acc.conditions
    decreases |pieces| - i
  {
    if i < |pieces| {
      var next := Step(acc, pieces[i]);
      StepShape(acc, pieces[i]);
      ParseFromShape(pieces, i + 1, next);
      PrefixOfPrefix(acc.conditions, next.conditions, ParseFrom(pieces, i + 1, next).conditions);
    }
  }

  lemma PrefixOfPrefix(a: seq<Condition>, b: seq<Condition>, c: seq<Condition>)
    requires |a| <= |b| && b[..|a|] == a
    requires |b| <= |c| && c[..|b|] == b
    ensures c[..|a|] == a
  {
    assert c[..|a|] == c[..|b|][..|a|];
  }

  /** `parse_query` only yields FIELD_MAP columns, and its connective is "AND" or "OR". */
  lemma ParseShape(query: string)
    ensures WellParsed(Parse(query))
  {
    ParseFromShape(Pieces(query), 0, Parsed([], "AND"));
  }

  /**
   * What `parse_query` returns: the conditions of the field pieces in input order, and the
   * last connective upper-cased, "AND" when there is none.
   */
  lemma ParseSpec(query: string)
    ensures Parse(query) == Parsed(FieldConditions(Pieces(query)), Operator(Pieces(query)))
  {
    var pieces := Pieces(query);
    ParseFromPrefix(pieces, 0);
  }

  /** The pieces from `i` on, read after the first `i`, give the parse of all of them. */
  lemma {:induction false} ParseFromPrefix(pieces: seq<string>, i: nat)
    requires i <= |pieces|
    ensures ParseFrom(pieces, i, Parsed(FieldConditions(pieces[..i]), Operator(pieces[..i]))) ==
      Parsed(FieldConditions(pieces), Operator(pieces))
    decreases |pieces| - i
  {
    if i == |pieces| {
      assert pieces[..i] == pieces;
    } else {
      StepPrefix(pieces, i);
      ParseFromPrefix(pieces, i + 1);
    }
  }

  /** Reading piece `i` after the first `i` gives the conditions and operator of the first `i + 1`. */
  lemma StepPrefix(pieces: seq<string>, i: nat)
    requires i < |pieces|
    ensures Step(Parsed(FieldConditions(pieces[..i]), Operator(pieces[..i])), pieces[i]) ==
      Parsed(FieldConditions(pieces[..i + 1]), Operator(pieces[..i + 1]))
  {
    CollectLast(pieces, i, PieceCondition);
    OperatorLast(pieces, i);
  }

  /** A condition is collected exactly when some piece gives it. */
  lemma {:induction false} CollectMember(pieces: seq<string>, f: string -> Option<Condition>, c: Condition)
    ensures c in Collect(pieces, f) <==> exists k :: 0 <= k < |pieces| && f(pieces[k]) == Some(c)
  {
    if pieces != [] {
      var init := pieces[..|pieces| - 1];
      CollectMember(init, f, c);
      if c in Collect(init, f) {
        var k :| 0 <= k < |init| && f(init[k]) == Some(c);
        assert pieces[k] == init[k];
      }
      if exists k :: 0 <= k < |pieces| && f(pieces[k]) == Some(c) {
        var k :| 0 <= k < |pieces| && f(pieces[k]) == Some(c);
        if k < |init| {
          assert init[k] == pieces[k];
        }
      }
    }
  }

  /** Collected conditions keep the order of their pieces: two stretches give the concatenation. */
  lemma {:induction false} CollectAppend(a: seq<string>, b: seq<string>, f: string -> Option<Condition>)
    ensures Collect(a + b, f) == Collect(a, f) + Collect(b, f)
    decreases |b|
  {
    if b != [] {
      var bi := b[..|b| - 1];
      assert (a + b)[..|a + b| - 1] == a + bi;
      CollectAppend(a, bi, f);
    } else {
      assert a + b == a;
    }
  }

  /** A field piece's condition: the FIELD_MAP column of the lower-cased field, with the value. */
  lemma PieceConditionOf(part: string, w: string, v: string)
    requires !IsConnective(part)
    requires FieldMatch(PyStr.Strip(part)) == Some((w, v))
    requires Column(PyStr.Lower(w)).Some?
    ensures PieceCondition(part) == Some(Condition(Column(PyStr.Lower(w)).value, v))
  {
  }

  /**
   * A match is the leading word run, a colon, the whitespace run after it, and then the
   * value, which runs to the end of the line.
   */
  lemma FieldMatchParts(t: string)
    requires FieldMatch(t).Some?
    ensures var m := FieldMatch(t).value; var j := SpaceRun(t, |m.0| + 1);
      WordRun(t) == |m.0| && j + |m.1| <= |t| && t[j..j + |m.1|] == m.1 &&
      (j + |m.1| == |t| || t[j + |m.1|] == '\n')
  {
    var n := WordRun(t);
    var j := SpaceRun(t, n + 1);
    var e := LineEnd(t, j);
    assert FieldMatch(t) == Some((t[..n], t[j..e]));
  }

  /** Conversely, a word, a colon, whitespace and a one-line value match as that field and value. */
  lemma FieldMatchOf(w: string, sp: string, v: string, rest: string)
    requires |w| > 0 && forall k :: 0 <= k < |w| ==> PyStr.IsWordChar(w[k])
    requires forall k :: 0 <= k < |sp| ==> PyStr.IsSpace(sp[k])
    requires |v| > 0 && '\n' !in v && !PyStr.IsSpace(v[0])
    requires rest == [] || rest[0] == '\n'
    ensures FieldMatch(w + ":" + sp + v + rest) == Some((w, v))
  {
    var t := w + ":" + sp + v + rest;
    var n := |w|;
    var j := n + 1 + |sp|;
    var e := j + |v|;
    Layout(w, sp, v, rest);
    WordRunAt(t, n);
    SpaceRunAt(t, n + 1, j);
    LineEndAt(t, j, e);
  }

  /** Where the parts of `w + ":" + sp + v + rest` sit. */
  lemma Layout(w: string, sp: string, v: string, rest: string)
    ensures var t := w + ":" + sp + v + rest; var n := |w|; var j := n + 1 + |sp|;
      |t| == j + |v| + |rest| && t[..n] == w && t[n] == ':' && t[j..j + |v|] == v &&
      (forall k :: 0 <= k < n ==> t[k] == w[k]) &&
      (forall k :: n + 1 <= k < j ==> t[k] == sp[k - n - 1]) &&
      (forall k :: j <= k < j + |v| ==> t[k] == v[k - j]) &&
      (rest != [] ==> t[j + |v|] == rest[0])
  {
    var t := w + ":" + sp + v + rest;
    assert t == w + ":" + sp + v + rest;
  }

  /** The leading word run ends at the first character that is not a word character. */
  lemma WordRunAt(t: string, n: nat)
    requires n < |t| && !PyStr.IsWordChar(t[n])
    requires forall k :: 0 <= k < n ==> PyStr.IsWordChar(t[k])
    ensures WordRun(t) == n
  {
  }

  /** The whitespace run from `a` ends at the first character that is not whitespace. */
  lemma SpaceRunAt(t: string, a: nat, b: nat)
    requires a <= b <= |t| && (b == |t| || !PyStr.IsSpace(t[b]))
    requires forall k :: a <= k < b ==> PyStr.IsSpace(t[k])
    ensures SpaceRun(t, a) == b
  {
  }

  /** The line from `j` ends at the first line break. */
  lemma LineEndAt(t: string, j: nat, e: nat)
    requires j <= e <= |t| && (e == |t| || t[e] == '\n')
    requires forall k :: j <= k < e ==> t[k] != '\n'
    ensures LineEnd(t, j) == e
  {
  }

  /** A query of one whitespace-free `field:value` term with a known field gives that one condition and "AND". */
  lemma ParseSingleTerm(w: string, v: string)
    requires |w| > 0 && forall k :: 0 <= k < |w| ==> PyStr.IsWordChar(w[k])
    requires |v| > 0 && forall k :: 0 <= k < |v| ==> !PyStr.IsSpace(v[k])
    requires Column(PyStr.Lower(w)).Some?
    ensures Parse(w + ":" + v) == Parsed([Condition(Column(PyStr.Lower(w)).value, v)], "AND")
  {
    var q := w + ":" + v;
    var c := Condition(Column(PyStr.Lower(w)).value, v);
    assert SpaceFree(q) && q[|w|] == ':' && FieldMatch(q) == Some((w, v)) by {
      SingleTermMatch(w, v);
    }
    assert Pieces(q) == [q] && PyStr.Strip(q) == q by {
      OnePiece(q);
    }
    assert !IsConnective(q) by {
      ColonNotConnective(q, |w|);
    }
    assert PieceCondition(q) == Some(c);
    ParseOfOnePiece(q, c);
  }

  /** No character of `q` is whitespace. */
  predicate SpaceFree(q: string)
  {
    forall k :: 0 <= k < |q| ==> !PyStr.IsSpace(q[k])
  }

  lemma SingleTermMatch(w: string, v: string)
    requires |w| > 0 && forall k :: 0 <= k < |w| ==> PyStr.IsWordChar(w[k])
    requires |v| > 0 && forall k :: 0 <= k < |v| ==> !PyStr.IsSpace(v[k])
    ensures var q := w + ":" + v; SpaceFree(q) && q[|w|] == ':' && FieldMatch(q) == Some((w, v))
  {
    var q := w + ":" + v;
    assert q == w + ":" + "" + v + "";
    forall k | 0 <= k < |q| ensures !PyStr.IsSpace(q[k]) {
      if k > |w| { assert q[k] == v[k - |w| - 1]; }
    }
    assert '\n' !in v by {
      forall k | 0 <= k < |v| ensures v[k] != '\n' { assert !PyStr.IsSpace(v[k]); }
    }
    FieldMatchOf(w, "", v, "");
  }

  /** A text without whitespace is one piece and is its own strip. */
  lemma OnePiece(q: string)
    requires |q| > 0 && SpaceFree(q)
    ensures Pieces(q) == [q] && PyStr.Strip(q) == q
  {
    NoSeparatorWithoutSpace(q, 0);
    assert PyStr.RStrip(q) == q;
  }

  /** A piece holding a colon is not a connective. */
  lemma ColonNotConnective(q: string, i: nat)
    requires i < |q| && q[i] == ':'
    ensures !IsConnective(q)
  {
    assert PyStr.Lower(q)[i] == ':';
  }

  /** A single piece that gives a condition parses to that condition and the default "AND". */
  lemma ParseOfOnePiece(q: string, c: Condition)
    requires Pieces(q) == [q] && !IsConnective(q) && PieceCondition(q) == Some(c)
    ensures Parse(q) == Parsed([c], "AND")
  {
    ParseSpec(q);
    assert [q][..0] == [];
    assert LastConnective([q]).None?;
  }

  /** No separator starts inside a string without whitespace. */
  lemma {:induction false} NoSeparatorWithoutSpace(s: string, i: nat)
    requires i <= |s|
    requires forall k :: i <= k < |s| ==> !PyStr.IsSpace(s[k])
    ensures FirstSeparator(s, i).None?
    decreases |s| - i
  {
    if i < |s| {
      NoSeparatorWithoutSpace(s, i + 1);
    }
  }

  /**
   * The separator is found anywhere, also inside what was meant as one value: for two
   * whitespace-free pieces, "a and b" splits into "a", "and", "b".
   */
  lemma SeparatorSplitsValue(a: string, b: string)
    requires forall k :: 0 <= k < |a| ==> !PyStr.IsSpace(a[k])
    requires forall k :: 0 <= k < |b| ==> !PyStr.IsSpace(b[k])
    ensures Pieces(a + " and " + b) == [a, "and", b]
  {
    var s := a + " and " + b;
    var n := |a|;
    assert s[..n] == a && s[n + 5..] == b;
    NoSeparatorBefore(s, 0, n);
    SeparatorInGap(a, b);
    NoSeparatorWithoutSpace(b, 0);
  }

  lemma SeparatorInGap(a: string, b: string)
    requires forall k :: 0 <= k < |b| ==> !PyStr.IsSpace(b[k])
    ensures SeparatorAt(a + " and " + b, |a|) == Some((|a| + 5, "and"))
  {
    var s := a + " and " + b;
    var n := |a|;
    AndGapChars(a, b);
    assert s[n + 1..n + 4] == "and";
    assert SpaceRun(s, n + 2) == n + 1 + 1 by { assert !PyStr.IsSpace(s[n + 1]); }
    LowerAnd();
    assert Connective(s, n + 1) == Some("and");
    assert SpaceRun(s, n + 5) == n + 5 by {
      if n + 5 < |s| { assert s[n + 5] == b[0]; }
    }
  }

  /** The characters of the gap " and " between two strings. */
  lemma AndGapChars(a: string, b: string)
    ensures var s := a + " and " + b; var n := |a|;
      |s| == n + 5 + |b| &&
      s[n] == ' ' && s[n + 1] == 'a' && s[n + 2] == 'n' && s[n + 3] == 'd' && s[n + 4] == ' ' &&
      s[n + 5..] == b
  {
    var s := a + " and " + b;
    assert s == a + (" and " + b);
  }

  lemma LowerAnd()
    ensures PyStr.Lower("and") == "and"
  {
    assert PyStr.Lower("and")[0] == 'a' && PyStr.Lower("and")[1] == 'n' && PyStr.Lower("and")[2] == 'd';
  }

  /** Scanning from `i` skips the whitespace-free stretch before `n`. */
  lemma NoSeparatorBefore(s: string, i: nat, n: nat)
    requires i <= n < |s|
    requires forall k :: i <= k < n ==> !PyStr.IsSpace(s[k])
    ensures FirstSeparator(s, i) == FirstSeparator(s, n)
  {
    NoSpaceFrom(s, i, n);
    SkipStretch(s, i, n);
  }

  /** The characters from `i` up to `n` are not whitespace. */
  predicate NoSpace(s: string, i: nat, n: nat)
    requires i <= n <= |s|
    decreases n - i
  {
    i == n || (!PyStr.IsSpace(s[i]) && NoSpace(s, i + 1, n))
  }

  /** The quantified form gives the recursive one. */
  lemma {:induction false} NoSpaceFrom(s: string, i: nat, n: nat)
    requires i <= n <= |s|
    requires forall k :: i <= k < n ==> !PyStr.IsSpace(s[k])
    ensures NoSpace(s, i, n)
    decreases n - i
  {
    if i < n {
      NoSpaceFrom(s, i + 1, n);
    }
  }

  /** Skipping the stretch one character at a time. */
  lemma {:induction false} SkipStretch(s: string, i: nat, n: nat)
    requires i <= n < |s| && NoSpace(s, i, n)
    ensures FirstSeparator(s, i) == FirstSeparator(s, n)
    decreases n - i
  {
    if i < n {
      SkipNonSpace(s, i);
      SkipStretch(s, i + 1, n);
    }
  }

  /** No separator starts at a character that is not whitespace. */
  lemma SkipNonSpace(s: string, i: nat)
    requires i < |s| && !PyStr.IsSpace(s[i])
    ensures FirstSeparator(s, i) == FirstSeparator(s, i + 1)
  {
    assert SeparatorAt(s, i) == None;
  }

  /** A trailing piece without "field:" yields no condition and is lost. */
  lemma NoColonNoCondition(t: string)
    requires ':' !in t
    ensures FieldMatch(t).None?
  {
    var n := WordRun(t);
    if 0 < n < |t| {
      assert t[n] in t;
    }
  }
}

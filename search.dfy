// The search box: "field: value" terms joined by "and"/"or", turned into a WHERE clause
// with one LIKE test per recognised field and its parameter list.
module Search {
  import opened Wrappers
  import PyStr

  /** FIELD_MAP: the searchable fields and the columns they test. */
  function Column(field: string): Option<string>
  {
    if field == "artist" then Some("artists.name")
    else if field == "genre" then Some("tracks.genre")
    else if field == "album" then Some("albums.name")
    else if field == "title" then Some("tracks.title")
    else None
  }

  // ---------------------------------------------------------------------------
  // re.split(r"\s+(and|or)\s+", query, flags=re.IGNORECASE)

  /** End of the whitespace run starting at `i`. */
  function SpaceRun(s: string, i: nat): (j: nat)
    requires i <= |s|
    ensures i <= j <= |s|
    ensures forall k :: i <= k < j ==> PyStr.IsSpace(s[k])
    ensures j == |s| || !PyStr.IsSpace(s[j])
    decreases |s| - i
  {
    if i < |s| && PyStr.IsSpace(s[i]) then SpaceRun(s, i + 1) else i
  }

  /** The connective ("and" or "or", any case) starting at `j`, as written. */
  function Connective(s: string, j: nat): (w: Option<string>)
    requires j <= |s|
    ensures w.Some? ==> j + |w.value| <= |s| && w.value == s[j..j + |w.value|] && |w.value| > 0
  {
    if j + 3 <= |s| && PyStr.Lower(s[j..j + 3]) == "and" then Some(s[j..j + 3])
    else if j + 2 <= |s| && PyStr.Lower(s[j..j + 2]) == "or" then Some(s[j..j + 2])
    else None
  }

  /**
   * A separator match starting at `i`: whitespace, a connective, whitespace. Greedy runs
   * leave no other way to match, since a connective starts with a letter. Gives the end of
   * the match and the connective.
   */
  function SeparatorAt(s: string, i: nat): (m: Option<(nat, string)>)
    requires i <= |s|
    ensures m.Some? ==> i < m.value.0 <= |s|
  {
    if i == |s| || !PyStr.IsSpace(s[i]) then None
    else
      var j := SpaceRun(s, i);
      match Connective(s, j)
      case None => None
      case Some(w) =>
        var k := j + |w|;
        if k < |s| && PyStr.IsSpace(s[k]) then Some((SpaceRun(s, k), w)) else None
  }

  /** The leftmost separator at or after `i`: its start, end and connective. */
  function FirstSeparator(s: string, i: nat): (m: Option<(nat, nat, string)>)
    requires i <= |s|
    ensures m.Some? ==> i <= m.value.0 < m.value.1 <= |s|
    ensures m.Some? ==> SeparatorAt(s, m.value.0) == Some((m.value.1, m.value.2))
    decreases |s| - i
  {
    if i == |s| then None
    else match SeparatorAt(s, i)
      case Some(x) => Some((i, x.0, x.1))
      case None => FirstSeparator(s, i + 1)
  }

  /** The pieces `re.split` returns: text, connective, text, ..., text. */
  function Pieces(s: string): (r: seq<string>)
    decreases |s|
  {
    var m := FirstSeparator(s, 0);
    if m.None? then [s]
    else [s[..m.value.0], m.value.2] + Pieces(s[m.value.1..])
  }

  // ---------------------------------------------------------------------------
  // parse_query

  /** Whether a piece is a connective: "and" or "or" in any case. */
  predicate IsConnective(part: string)
  {
    PyStr.Lower(part) == "and" || PyStr.Lower(part) == "or"
  }

  /** The leading `\w+` run of a string. */
  function WordRun(t: string): (n: nat)
    ensures n <= |t| && (forall k :: 0 <= k < n ==> PyStr.IsWordChar(t[k]))
    ensures n == |t| || !PyStr.IsWordChar(t[n])
  {
    if t != [] && PyStr.IsWordChar(t[0]) then 1 + WordRun(t[1..]) else 0
  }

  /** `(.+)` from `j`: the value runs up to the first line break or the end. */
  function LineEnd(t: string, j: nat): (e: nat)
    requires j <= |t|
    ensures j <= e <= |t|
    ensures forall k :: j <= k < e ==> t[k] != '\n'
    ensures e == |t| || t[e] == '\n'
    decreases |t| - j
  {
    if j == |t| || t[j] == '\n' then j else LineEnd(t, j + 1)
  }

  /**
   * `re.match(r"(\w+):\s*(.+)", t)`: a word, a colon, optional whitespace, then at least
   * one character of value up to the line's end. On a stripped piece, where the text never
   * ends in whitespace, the greedy `\s*` never needs to give anything back.
   */
  function FieldMatch(t: string): (m: Option<(string, string)>)
    ensures m.Some? ==> |m.value.0| > 0 && |m.value.1| > 0
    ensures m.Some? ==> |m.value.0| < |t| && t[..|m.value.0|] == m.value.0 && t[|m.value.0|] == ':'
    ensures m.Some? ==> forall k :: 0 <= k < |m.value.0| ==> PyStr.IsWordChar(m.value.0[k])
    ensures m.Some? ==> '\n' !in m.value.1 && !PyStr.IsSpace(m.value.1[0])
  {
    var n := WordRun(t);
    if n == 0 || n == |t| || t[n] != ':' then None
    else
      var j := SpaceRun(t, n + 1);
      var e := LineEnd(t, j);
      if e == j then None
      else
        assert forall k :: 0 <= k < e - j ==> t[j..e][k] == t[j + k];
        Some((t[..n], t[j..e]))
  }

  /** A search condition: the column tested and the text looked for. */
  datatype Condition = Condition(column: string, value: string)

  /** The query's conditions and connective. */
  datatype Parsed = Parsed(conditions: seq<Condition>, operator: string)

  /** One piece read: a connective sets the operator; a "field: value" piece with a known field adds a condition. */
  function Step(acc: Parsed, part: string): Parsed
  {
    if IsConnective(part) then acc.(operator := PyStr.Upper(part))
    else
      var m := FieldMatch(PyStr.Strip(part));
      if m.None? then acc
      else
        var col := Column(PyStr.Lower(m.value.0));
        if col.None? then acc
        else acc.(conditions := acc.conditions + [Condition(col.value, m.value.1)])
  }

  /** The pieces from `i` on, on top of what came before. */
  function ParseFrom(pieces: seq<string>, i: nat, acc: Parsed): Parsed
    requires i <= |pieces|
    decreases |pieces| - i
  {
    if i == |pieces| then acc else ParseFrom(pieces, i + 1, Step(acc, pieces[i]))
  }

  function Parse(query: string): Parsed
  {
    ParseFrom(Pieces(query), 0, Parsed([], "AND"))
  }

  /** The condition one piece gives: a `field: value` piece, not a connective, whose field FIELD_MAP knows. */
  function PieceCondition(part: string): Option<Condition>
  {
    if IsConnective(part) then None
    else
      var m := FieldMatch(PyStr.Strip(part));
      if m.None? then None
      else
        var col := Column(PyStr.Lower(m.value.0));
        if col.None? then None else Some(Condition(col.value, m.value.1))
  }

  function OptionSeq(o: Option<Condition>): seq<Condition>
  {
    if o.None? then [] else [o.value]
  }

  /** The conditions `f` gives for the pieces, in input order. */
  function Collect(pieces: seq<string>, f: string -> Option<Condition>): seq<Condition>
  {
    if pieces == [] then []
    else Collect(pieces[..|pieces| - 1], f) + OptionSeq(f(pieces[|pieces| - 1]))
  }

  /** The conditions the pieces give, in input order. */
  function FieldConditions(pieces: seq<string>): seq<Condition>
  {
    Collect(pieces, PieceCondition)
  }

  /** The position of the last connective piece, if there is one. */
  function LastConnective(pieces: seq<string>): (r: Option<nat>)
    ensures r.Some? ==> r.value < |pieces| && IsConnective(pieces[r.value])
    ensures r.Some? ==> forall k :: r.value < k < |pieces| ==> !IsConnective(pieces[k])
    ensures r.None? ==> forall k :: 0 <= k < |pieces| ==> !IsConnective(pieces[k])
  {
    if pieces == [] then None
    else if IsConnective(pieces[|pieces| - 1]) then Some(|pieces| - 1)
    else LastConnective(pieces[..|pieces| - 1])
  }

  /** The connective the pieces leave in force: the last one upper-cased, "AND" without one. */
  function Operator(pieces: seq<string>): string
  {
    var l := LastConnective(pieces);
    if l.None? then "AND" else PyStr.Upper(pieces[l.value])
  }

  /** One more piece adds its condition, if any, at the end. */
  lemma CollectLast(pieces: seq<string>, i: nat, f: string -> Option<Condition>)
    requires i < |pieces|
    ensures Collect(pieces[..i + 1], f) == Collect(pieces[..i], f) + OptionSeq(f(pieces[i]))
  {
    assert pieces[..i + 1][..i] == pieces[..i];
  }

  /** One more piece sets the operator when it is a connective and keeps it otherwise. */
  lemma OperatorLast(pieces: seq<string>, i: nat)
    requires i < |pieces|
    ensures Operator(pieces[..i + 1]) == if IsConnective(pieces[i]) then PyStr.Upper(pieces[i]) else Operator(pieces[..i])
  {
    assert pieces[..i + 1][..i] == pieces[..i];
  }

  /**
   * `parse_query(input_query)`: the conditions of the field pieces in input order, and the
   * last connective upper-cased ("AND" when there is none).
   */
  method ParseQuery(query: string) returns (conditions: seq<Condition>, operator: string)
    ensures conditions == FieldConditions(Pieces(query))
    ensures operator == Operator(Pieces(query))
    ensures Parse(query) == Parsed(conditions, operator)
  {
    operator := "AND";
    conditions := [];
    var pieces := Pieces(query);
    for i := 0 to |pieces|
      invariant conditions == FieldConditions(pieces[..i])
      invariant operator == Operator(pieces[..i])
      invariant Parse(query) == ParseFrom(pieces, i, Parsed(conditions, operator))
    {
      var part := pieces[i];
      CollectLast(pieces, i, PieceCondition);
      OperatorLast(pieces, i);
      if IsConnective(part) {
        operator := PyStr.Upper(part);
      } else {
        var m := FieldMatch(PyStr.Strip(part));
        if m.Some? {
          var col := Column(PyStr.Lower(m.value.0));
          if col.Some? {
            conditions := conditions + [Condition(col.value, m.value.1)];
          }
        }
      }
    }
    assert pieces[..|pieces|] == pieces;
  }

  // ---------------------------------------------------------------------------
  // build_sql_query and create_search_query

  const SelectHead :=
    "\n        SELECT tracks.track_id, tracks.title, artists.artist_id, artists.name AS artist, albums.name AS album, tracks.genre" +
    "\n        FROM tracks" +
    "\n        JOIN artists ON tracks.artist_id = artists.artist_id" +
    "\n        JOIN albums ON tracks.album_id = albums.album_id" +
    "\n        WHERE "
  const SelectTail := ";\n    "

  function Clause(c: Condition): string
  {
    c.column + " LIKE ?"
  }

  function Param(c: Condition): string
  {
    "%" + c.value + "%"
  }

  /** The statement and its parameters. */
  datatype Query = Query(sql: string, params: seq<string>)

  function Clauses(conditions: seq<Condition>): (r: seq<string>)
    ensures |r| == |conditions| && forall i :: 0 <= i < |r| ==> r[i] == Clause(conditions[i])
  {
    seq(|conditions|, i requires 0 <= i < |conditions| => Clause(conditions[i]))
  }

  function Params(conditions: seq<Condition>): (r: seq<string>)
    ensures |r| == |conditions| && forall i :: 0 <= i < |r| ==> r[i] == Param(conditions[i])
    ensures forall i :: 0 <= i < |r| ==> |r[i]| >= 2 && r[i][1..|r[i]| - 1] == conditions[i].value
  {
    seq(|conditions|, i requires 0 <= i < |conditions| => Param(conditions[i]))
  }

  /** The WHERE body: the clauses joined by the connective with a space either side. */
  function Where(conditions: seq<Condition>, operator: string): string
  {
    PyStr.Join(Clauses(conditions), " " + operator + " ")
  }

  function Build(conditions: seq<Condition>, operator: string): Query
  {
    Query(SelectHead + Where(conditions, operator) + SelectTail, Params(conditions))
  }

  /** `build_sql_query(conditions, logical_operator)`. */
  method BuildSqlQuery(conditions: seq<Condition>, operator: string) returns (q: Query)
    ensures q.params == Params(conditions)
    ensures q.sql == SelectHead + PyStr.Join(Clauses(conditions), " " + operator + " ") + SelectTail
  {
    var whereClauses := [];
    var params := [];
    for i := 0 to |conditions|
      invariant whereClauses == Clauses(conditions[..i]) && params == Params(conditions[..i])
    {
      whereClauses := whereClauses + [Clause(conditions[i])];
      params := params + [Param(conditions[i])];
    }
    assert conditions[..|conditions|] == conditions;
    q := Query(SelectHead + PyStr.Join(whereClauses, " " + operator + " ") + SelectTail, params);
  }

  /** `create_search_query(input_query)`: the statement for the parsed query. */
  function CreateSearchQuery(query: string): (q: Query)
    ensures |q.params| == |Parse(query).conditions|
    ensures forall i :: 0 <= i < |q.params| ==> q.params[i] == "%" + Parse(query).conditions[i].value + "%"
  {
    var p := Parse(query);
    Build(p.conditions, p.operator)
  }

  /** The columns FIELD_MAP can produce. */
  predicate KnownColumn(col: string)
  {
    col in {"artists.name", "tracks.genre", "albums.name", "tracks.title"}
  }

  /** Only FIELD_MAP columns, and an "AND" or "OR" connective. */
  predicate WellParsed(p: Parsed)
  {
    (forall k :: 0 <= k < |p.conditions| ==> KnownColumn(p.conditions[k].column)) &&
    (p.operator == "AND" || p.operator == "OR")
  }
}

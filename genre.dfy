// Genre strings from the track table: split on ';' and '/', normalised, counted, and
// sorted into high-level categories ("pop", "rock", ...), with "uncategorized" for the rest.
module Genre {
  import opened Wrappers
  import PyStr
  import opened PyDict

  /** The characters a genre string is split on. */
  const Delimiters: set<char> := {';', '/'}

  /** The bucket for a genre no category lists. */
  const Uncategorized := "uncategorized"

  /** The high-level categories, in the order they are tried, with the genres each lists. */
  const Categories: seq<(string, seq<string>)> := [
    ("pop", ["pop", "dance pop", "synthpop", "pop rock"]),
    ("rock", ["rock", "alternative rock", "hard rock", "indie rock", "classic rock"]),
    ("electronic", ["electronic", "house", "trance", "techno", "ambient"]),
    ("jazz", ["jazz", "smooth jazz", "bebop", "fusion"]),
    ("classical", ["classical", "baroque", "romantic", "modern"]),
    ("metal", ["metal", "heavy metal", "death metal", "black metal"])
  ]

  // ---------------------------------------------------------------------------
  // split_and_normalize_genres

  /** One piece trimmed and lower-cased. */
  function Normalize(piece: string): string
  {
    PyStr.Lower(PyStr.Strip(piece))
  }

  /** What a normalised piece looks like: no delimiter, no capital, no whitespace at either end. */
  predicate NormalGenre(g: string)
  {
    (forall i :: 0 <= i < |g| ==> g[i] !in Delimiters && !('A' <= g[i] <= 'Z')) &&
    (g == [] || (!PyStr.IsSpace(g[0]) && !PyStr.IsSpace(g[|g| - 1])))
  }

  /** `split_and_normalize_genres(genre_string)`: one entry per piece, empty pieces kept. */
  function SplitAndNormalize(genre: string): (r: seq<string>)
    ensures |r| == PyStr.CountIn(genre, Delimiters) + 1
    ensures forall k :: 0 <= k < |r| ==> NormalGenre(r[k])
  {
    var pieces := PyStr.Split(genre, Delimiters);
    var r := NormalizeAll(pieces);
    forall k | 0 <= k < |r| ensures NormalGenre(r[k]) {
      NormalizeShape(pieces[k]);
    }
    r
  }

  /** `[g.strip().lower() for g in pieces]`. */
  function NormalizeAll(pieces: seq<string>): (r: seq<string>)
    ensures |r| == |pieces|
    ensures forall k :: 0 <= k < |r| ==> r[k] == Normalize(pieces[k])
  {
    MapAll(Normalize, pieces)
  }

  /** A function applied to every element of a list. */
  function MapAll(f: string -> string, xs: seq<string>): (r: seq<string>)
    ensures |r| == |xs|
    ensures forall k :: 0 <= k < |r| ==> r[k] == f(xs[k])
  {
    seq(|xs|, k requires 0 <= k < |xs| => f(xs[k]))
  }

  /** Mapping over a list with a first element maps that element, then the rest. */
  lemma MapAllCons(f: string -> string, a: string, rest: seq<string>)
    ensures MapAll(f, [a] + rest) == [f(a)] + MapAll(f, rest)
  {
    var l := MapAll(f, [a] + rest);
    var r := [f(a)] + MapAll(f, rest);
    forall k | 0 <= k < |l|
      ensures l[k] == r[k]
    {
      if k > 0 {
        assert ([a] + rest)[k] == rest[k - 1];
      }
    }
  }

  lemma NormalizeShape(piece: string)
    requires forall i :: 0 <= i < |piece| ==> piece[i] !in Delimiters
    ensures NormalGenre(Normalize(piece))
  {
    StripShape(piece);
    LowerShape(PyStr.Strip(piece));
  }

  lemma StripShape(piece: string)
    requires forall i :: 0 <= i < |piece| ==> piece[i] !in Delimiters
    ensures var t := PyStr.Strip(piece);
      (forall i :: 0 <= i < |t| ==> t[i] !in Delimiters) &&
      (t == [] || (!PyStr.IsSpace(t[0]) && !PyStr.IsSpace(t[|t| - 1])))
  {
    var r := PyStr.RStrip(piece);
    var t := PyStr.LStrip(r);
    assert t == PyStr.Strip(piece);
    var a := |r| - |t|;
    assert t == r[a..] && r == piece[..|r|];
    assert t == piece[a..|r|];
    if t != [] {
      assert t[|t| - 1] == r[|r| - 1];
    }
  }

  lemma LowerShape(t: string)
    requires forall i :: 0 <= i < |t| ==> t[i] !in Delimiters
    requires t == [] || (!PyStr.IsSpace(t[0]) && !PyStr.IsSpace(t[|t| - 1]))
    ensures NormalGenre(PyStr.Lower(t))
  {
    var n := PyStr.Lower(t);
    forall i | 0 <= i < |n| ensures n[i] !in Delimiters && !('A' <= n[i] <= 'Z') {
      assert n[i] == PyStr.LowerChar(t[i]);
    }
    if t != [] {
      assert n[0] == PyStr.LowerChar(t[0]);
      assert n[|n| - 1] == PyStr.LowerChar(t[|t| - 1]);
    }
  }

  /** A delimiter-free piece followed by a delimiter becomes the first entry; an empty piece stays. */
  lemma LeadingPiece(a: string, c: char, rest: string)
    requires c in Delimiters
    requires forall i :: 0 <= i < |a| ==> a[i] !in Delimiters
    ensures SplitAndNormalize(a + [c] + rest) == [Normalize(a)] + SplitAndNormalize(rest)
  {
    PyStr.SplitLine(a, c, rest, Delimiters);
    MapAllCons(Normalize, a, PyStr.Split(rest, Delimiters));
  }

  /** A string without a delimiter is a single genre. */
  lemma SingleGenre(genre: string)
    requires forall i :: 0 <= i < |genre| ==> genre[i] !in Delimiters
    ensures SplitAndNormalize(genre) == [Normalize(genre)]
  {
    PyStr.SplitNone(genre, Delimiters);
  }

  /** The list `collect_genres` builds by extending with each genre string's pieces. */
  function Normalized(genres: seq<string>): (r: seq<string>)
    ensures forall k :: 0 <= k < |r| ==> NormalGenre(r[k])
  {
    if genres == [] then []
    else
      var init := Normalized(genres[..|genres| - 1]);
      var last := SplitAndNormalize(genres[|genres| - 1]);
      NormalAppend(init, last);
      init + last
  }

  lemma NormalAppend(a: seq<string>, b: seq<string>)
    requires forall k :: 0 <= k < |a| ==> NormalGenre(a[k])
    requires forall k :: 0 <= k < |b| ==> NormalGenre(b[k])
    ensures forall k :: 0 <= k < |a + b| ==> NormalGenre((a + b)[k])
  {
    forall k | 0 <= k < |a + b| ensures NormalGenre((a + b)[k]) {
      if k >= |a| { assert (a + b)[k] == b[k - |a|]; }
    }
  }

  // ---------------------------------------------------------------------------
  // Counter(normalized_genres)

  /** One more occurrence of `g`: a new key starts at 1, a known one keeps its place. */
  function Bump(counts: Dict<string, nat>, g: string): (r: Dict<string, nat>)
    requires DistinctKeys(counts)
    ensures DistinctKeys(r)
  {
    match Get(counts, g)
    case Some(n) => Put(counts, g, n + 1)
    case None => Put(counts, g, 1)
  }

  /** `Counter(s)`: keys in order of first occurrence. */
  function Tally(s: seq<string>): (r: Dict<string, nat>)
    ensures DistinctKeys(r)
  {
    if s == [] then [] else Bump(Tally(s[..|s| - 1]), s[|s| - 1])
  }

  /** The sum of a dict's counts. */
  function Total(d: seq<(string, nat)>): nat
  {
    if d == [] then 0 else d[0].1 + Total(d[1..])
  }

  /** Each key of the counter is a genre of the list, with its number of occurrences. */
  lemma {:induction false} TallyCounts(s: seq<string>)
    ensures forall g :: HasKey(Tally(s), g) <==> g in s
    ensures forall i :: 0 <= i < |Tally(s)| ==> Tally(s)[i].1 == multiset(s)[Tally(s)[i].0]
  {
    if s != [] {
      var init := s[..|s| - 1];
      var g := s[|s| - 1];
      TallyCounts(init);
      assert s == init + [g];
      assert multiset(s) == multiset(init) + multiset{g};
      BumpCounts(Tally(init), g, multiset(init));
    }
  }

  /** A counter of the multiset `m` bumped at `g` is a counter of `m` with one more `g`. */
  lemma BumpCounts(d: Dict<string, nat>, g: string, m: multiset<string>)
    requires DistinctKeys(d)
    requires forall x :: HasKey(d, x) <==> x in m
    requires forall i :: 0 <= i < |d| ==> d[i].1 == m[d[i].0]
    ensures var r := Bump(d, g);
      (forall x :: HasKey(r, x) <==> x in m + multiset{g}) &&
      (forall i :: 0 <= i < |r| ==> r[i].1 == (m + multiset{g})[r[i].0])
  {
    var r := Bump(d, g);
    var m' := m + multiset{g};
    forall i | 0 <= i < |r| ensures r[i].1 == m'[r[i].0] {
      if r[i].0 == g {
        if HasKey(d, g) {
          var j :| 0 <= j < |d| && d[j].0 == g;
          GetAt(d, j);
        }
      } else {
        assert i < |d| && r[i] == d[i];
      }
    }
    forall x ensures HasKey(r, x) <==> x in m' {
      if x != g {
        if HasKey(d, x) {
          var j :| 0 <= j < |d| && d[j].0 == x;
          assert r[j] == d[j];
        }
        if HasKey(r, x) {
          var j :| 0 <= j < |r| && r[j].0 == x;
          assert j < |d| && r[j] == d[j];
        }
      }
    }
  }

  /** The counts add up to the length of the list. */
  lemma {:induction false} TallyTotal(s: seq<string>)
    ensures Total(Tally(s)) == |s|
  {
    if s != [] {
      var init := s[..|s| - 1];
      var g := s[|s| - 1];
      TallyTotal(init);
      var d := Tally(init);
      var i := IndexOf(d, g);
      if i < 0 {
        TotalAppend(d, [(g, 1)]);
      } else {
        GetAt(d, i);
        TotalUpdate(d, i, (g, d[i].1 + 1));
        assert Put(d, g, d[i].1 + 1) == d[i := (g, d[i].1 + 1)];
      }
    }
  }

  lemma {:induction false} TotalAppend(a: seq<(string, nat)>, b: seq<(string, nat)>)
    ensures Total(a + b) == Total(a) + Total(b)
  {
    if a == [] {
      assert a + b == b;
    } else {
      TotalAppend(a[1..], b);
      assert (a + b)[1..] == a[1..] + b;
    }
  }

  lemma {:induction false} TotalUpdate(d: seq<(string, nat)>, i: nat, e: (string, nat))
    requires i < |d|
    ensures Total(d[i := e]) == Total(d) - d[i].1 + e.1
  {
    if i > 0 {
      TotalUpdate(d[1..], i - 1, e);
      assert d[i := e][1..] == d[1..][i - 1 := e];
    }
  }

  // ---------------------------------------------------------------------------
  // Categorisation

  /** The first category of `cats` from index `i` on that lists `g`, else "uncategorized". */
  function FirstCategory(cats: seq<(string, seq<string>)>, g: string, i: nat): string
    requires i <= |cats|
    decreases |cats| - i
  {
    if i == |cats| then Uncategorized
    else if g in cats[i].1 then cats[i].0
    else FirstCategory(cats, g, i + 1)
  }

  /** The bucket `collect_genres` files genre `g` under. */
  function CategoryOf(g: string): string
  {
    FirstCategory(Categories, g, 0)
  }

  /**
   * Among categories none of which is called "uncategorized", a genre goes to
   * "uncategorized" exactly when no category from index `i` on lists it.
   */
  lemma {:induction false} FirstCategoryNone(cats: seq<(string, seq<string>)>, g: string, i: nat)
    requires i <= |cats|
    requires forall j :: 0 <= j < |cats| ==> cats[j].0 != Uncategorized
    ensures FirstCategory(cats, g, i) == Uncategorized <==> forall j :: i <= j < |cats| ==> g !in cats[j].1
    decreases |cats| - i
  {
    if i < |cats| {
      FirstCategoryNone(cats, g, i + 1);
    }
  }

  /** A genre filed under a category goes to the first category from index `i` on that lists it. */
  lemma {:induction false} FirstCategoryFirst(cats: seq<(string, seq<string>)>, g: string, i: nat)
    requires i <= |cats| && FirstCategory(cats, g, i) != Uncategorized
    ensures exists j :: (i <= j < |cats| && cats[j].0 == FirstCategory(cats, g, i) &&
                         g in cats[j].1 && forall l :: i <= l < j ==> g !in cats[l].1)
    decreases |cats| - i
  {
    if g !in cats[i].1 {
      FirstCategoryFirst(cats, g, i + 1);
      var j :| i + 1 <= j < |cats| && cats[j].0 == FirstCategory(cats, g, i + 1) &&
        g in cats[j].1 && forall l :: i + 1 <= l < j ==> g !in cats[l].1;
      assert forall l :: i <= l < j ==> g !in cats[l].1;
    }
  }

  lemma CategoryNames()
    ensures forall j :: 0 <= j < |Categories| ==> Categories[j].0 != Uncategorized
  {
  }

  /** `collect_genres`'s placement rule for the six categories it knows. */
  lemma CategoryOfSpec(g: string)
    ensures CategoryOf(g) == Uncategorized <==> forall j :: 0 <= j < |Categories| ==> g !in Categories[j].1
    ensures CategoryOf(g) != Uncategorized ==> exists j :: (0 <= j < |Categories| && Categories[j].0 == CategoryOf(g) &&
        g in Categories[j].1 && forall l :: 0 <= l < j ==> g !in Categories[l].1)
  {
    CategoryNames();
    FirstCategoryNone(Categories, g, 0);
    if CategoryOf(g) != Uncategorized {
      FirstCategoryFirst(Categories, g, 0);
    }
  }

  /** `genre_tree[category]`, an empty list for a category not yet seen (a defaultdict). */
  function Bucket(tree: Dict<string, seq<(string, nat)>>, c: string): seq<(string, nat)>
  {
    match Get(tree, c)
    case Some(b) => b
    case None => []
  }

  /** `genre_tree[category].append({"genre": g, "count": n})`. */
  function Place(tree: Dict<string, seq<(string, nat)>>, c: string, g: string, n: nat): (r: Dict<string, seq<(string, nat)>>)
    requires DistinctKeys(tree)
    ensures DistinctKeys(r)
  {
    Put(tree, c, Bucket(tree, c) + [(g, n)])
  }

  /** The tree after the counter's entries up to the end of `counts`, each in its category. */
  function TreeOf(counts: Dict<string, nat>): (r: Dict<string, seq<(string, nat)>>)
    ensures DistinctKeys(r)
  {
    if counts == [] then []
    else
      var e := counts[|counts| - 1];
      Place(TreeOf(counts[..|counts| - 1]), CategoryOf(e.0), e.0, e.1)
  }

  /** Every bucket's entries, bucket after bucket. */
  function Flat(tree: Dict<string, seq<(string, nat)>>): seq<(string, nat)>
  {
    if tree == [] then [] else tree[0].1 + Flat(tree[1..])
  }

  /** Every entry sits in the bucket of its own genre's category. */
  predicate Filed(tree: Dict<string, seq<(string, nat)>>)
  {
    forall j, k :: 0 <= j < |tree| && 0 <= k < |tree[j].1| ==> CategoryOf(tree[j].1[k].0) == tree[j].0
  }

  /**
   * The tree holds each counter entry exactly once, in the bucket of its category, so the
   * bucket counts add up to the counter's total.
   */
  lemma {:induction false} TreeOfShape(counts: Dict<string, nat>)
    ensures Filed(TreeOf(counts))
    ensures multiset(Flat(TreeOf(counts))) == multiset(counts)
    ensures Total(Flat(TreeOf(counts))) == Total(counts)
  {
    if counts != [] {
      var init := counts[..|counts| - 1];
      var e := counts[|counts| - 1];
      assert counts == init + [e];
      TreeOfShape(init);
      TotalAppend(init, [e]);
      PlaceFiled(TreeOf(init), CategoryOf(e.0), e.0, e.1);
      PlaceFlat(TreeOf(init), CategoryOf(e.0), e.0, e.1);
      PlaceTotal(TreeOf(init), CategoryOf(e.0), e.0, e.1);
    }
  }

  /** Filing one entry keeps every entry in its category's bucket. */
  lemma PlaceFiled(tree: Dict<string, seq<(string, nat)>>, c: string, g: string, n: nat)
    requires DistinctKeys(tree) && Filed(tree) && c == CategoryOf(g)
    ensures Filed(Place(tree, c, g, n))
  {
    var b := Bucket(tree, c) + [(g, n)];
    var i := IndexOf(tree, c);
    if i < 0 {
      assert Place(tree, c, g, n) == tree + [(c, b)];
      FiledAppend(tree, c, b);
    } else {
      GetAt(tree, i);
      assert Place(tree, c, g, n) == tree[i := (c, b)];
      FiledUpdate(tree, i, (c, b));
    }
  }

  /** Filing into a new category appends a bucket; into a known one extends that bucket in place. */
  lemma PlaceForm(tree: Dict<string, seq<(string, nat)>>, c: string, g: string, n: nat)
    requires DistinctKeys(tree)
    ensures var i := IndexOf(tree, c);
      (i < 0 ==> Place(tree, c, g, n) == tree + [(c, [(g, n)])]) &&
      (i >= 0 ==> Place(tree, c, g, n) == tree[i := (c, tree[i].1 + [(g, n)])])
  {
    var i := IndexOf(tree, c);
    if i >= 0 {
      GetAt(tree, i);
      assert Bucket(tree, c) == tree[i].1;
    } else {
      assert Bucket(tree, c) + [(g, n)] == [(g, n)];
    }
  }

  /** Filing one entry adds exactly that entry to the tree. */
  lemma PlaceFlat(tree: Dict<string, seq<(string, nat)>>, c: string, g: string, n: nat)
    requires DistinctKeys(tree)
    ensures multiset(Flat(Place(tree, c, g, n))) == multiset(Flat(tree)) + multiset{(g, n)}
  {
    var i := IndexOf(tree, c);
    PlaceForm(tree, c, g, n);
    if i < 0 {
      FlatAppend(tree, c, [(g, n)]);
    } else {
      var b := tree[i].1 + [(g, n)];
      FlatUpdate(tree, i, (c, b));
      var before := multiset(Flat(tree));
      var after := multiset(Flat(tree[i := (c, b)]));
      assert multiset(b) == multiset(tree[i].1) + multiset{(g, n)};
      assert after + multiset(tree[i].1) == before + multiset(b);
      forall y ensures after[y] == (before + multiset{(g, n)})[y] {
        assert (after + multiset(tree[i].1))[y] == (before + multiset(b))[y];
      }
      assert after == before + multiset{(g, n)};
    }
  }

  /** Filing one entry adds its count to the tree's total. */
  lemma PlaceTotal(tree: Dict<string, seq<(string, nat)>>, c: string, g: string, n: nat)
    requires DistinctKeys(tree)
    ensures Total(Flat(Place(tree, c, g, n))) == Total(Flat(tree)) + n
  {
    var i := IndexOf(tree, c);
    PlaceForm(tree, c, g, n);
    if i < 0 {
      FlatAppend(tree, c, [(g, n)]);
      TotalAppend(Flat(tree), [(g, n)]);
    } else {
      var b := tree[i].1 + [(g, n)];
      FlatUpdateTotal(tree, i, (c, b));
      TotalAppend(tree[i].1, [(g, n)]);
    }
  }

  lemma FiledAppend(tree: Dict<string, seq<(string, nat)>>, c: string, b: seq<(string, nat)>)
    requires Filed(tree)
    requires forall k :: 0 <= k < |b| ==> CategoryOf(b[k].0) == c
    ensures Filed(tree + [(c, b)])
  {
  }

  lemma FiledUpdate(tree: Dict<string, seq<(string, nat)>>, i: nat, e: (string, seq<(string, nat)>))
    requires Filed(tree) && i < |tree|
    requires forall k :: 0 <= k < |e.1| ==> CategoryOf(e.1[k].0) == e.0
    ensures Filed(tree[i := e])
  {
  }

  lemma {:induction false} FlatAppend(tree: Dict<string, seq<(string, nat)>>, c: string, b: seq<(string, nat)>)
    ensures Flat(tree + [(c, b)]) == Flat(tree) + b
  {
    if tree != [] {
      FlatAppend(tree[1..], c, b);
      assert (tree + [(c, b)])[1..] == tree[1..] + [(c, b)];
    }
  }

  lemma {:induction false} FlatUpdate(tree: Dict<string, seq<(string, nat)>>, i: nat, e: (string, seq<(string, nat)>))
    requires i < |tree|
    ensures multiset(Flat(tree[i := e])) + multiset(tree[i].1) == multiset(Flat(tree)) + multiset(e.1)
  {
    var u := tree[i := e];
    assert multiset(Flat(u)) == multiset(u[0].1) + multiset(Flat(u[1..]));
    assert multiset(Flat(tree)) == multiset(tree[0].1) + multiset(Flat(tree[1..]));
    if i == 0 {
      assert u[1..] == tree[1..];
    } else {
      FlatUpdate(tree[1..], i - 1, e);
      assert u[1..] == tree[1..][i - 1 := e];
      assert u[0] == tree[0] && tree[1..][i - 1] == tree[i];
      calc {
        multiset(Flat(u)) + multiset(tree[i].1);
        multiset(tree[0].1) + (multiset(Flat(u[1..])) + multiset(tree[i].1));
        multiset(tree[0].1) + (multiset(Flat(tree[1..])) + multiset(e.1));
        multiset(Flat(tree)) + multiset(e.1);
      }
    }
  }

  lemma {:induction false} FlatUpdateTotal(tree: Dict<string, seq<(string, nat)>>, i: nat, e: (string, seq<(string, nat)>))
    requires i < |tree|
    ensures Total(Flat(tree[i := e])) == Total(Flat(tree)) - Total(tree[i].1) + Total(e.1)
  {
    var u := tree[i := e];
    TotalAppend(tree[0].1, Flat(tree[1..]));
    TotalAppend(u[0].1, Flat(u[1..]));
    if i == 0 {
      assert u[1..] == tree[1..];
    } else {
      FlatUpdateTotal(tree[1..], i - 1, e);
      assert u[1..] == tree[1..][i - 1 := e];
    }
  }

  // ---------------------------------------------------------------------------
  // collect_genres

  /**
   * `collect_genres` on the first column of the genre query: the pieces of every genre
   * string, counted, and each counted genre filed under its category. The JSON file it
   * writes is the returned tree.
   */
  method CollectGenres(genres: seq<string>) returns (tree: Dict<string, seq<(string, nat)>>)
    ensures tree == TreeOf(Tally(Normalized(genres)))
  {
    var normalized := NormalizeGenres(genres);
    var counts := Tally(normalized);
    tree := [];
    for i := 0 to |counts|
      invariant DistinctKeys(tree) && tree == TreeOf(counts[..i])
    {
      var (genre, count) := counts[i];
      var found := FindCategory(Categories, genre);
      TreeOfStep(counts, i);
      if found.Some? {
        tree := Place(tree, found.value, genre, count);
      } else {
        tree := Place(tree, Uncategorized, genre, count);
      }
    }
    assert counts[..|counts|] == counts;
  }

  /** The tree grows by one entry per count, filed under the genre's category. */
  lemma TreeOfStep(counts: Dict<string, nat>, i: nat)
    requires i < |counts|
    ensures TreeOf(counts[..i + 1]) == Place(TreeOf(counts[..i]), CategoryOf(counts[i].0), counts[i].0, counts[i].1)
  {
    assert counts[..i + 1][..i] == counts[..i];
  }

  /** The first loop of `collect_genres`: every genre string's pieces, in order. */
  method NormalizeGenres(genres: seq<string>) returns (normalized: seq<string>)
    ensures normalized == Normalized(genres)
  {
    normalized := [];
    for i := 0 to |genres|
      invariant normalized == Normalized(genres[..i])
    {
      assert genres[..i + 1][..i] == genres[..i];
      normalized := normalized + SplitAndNormalize(genres[i]);
    }
    assert genres[..|genres|] == genres;
  }

  /**
   * The search of `collect_genres` through the categories: the first one listing the
   * genre, or nothing (the genre then goes to "uncategorized").
   */
  method FindCategory(cats: seq<(string, seq<string>)>, genre: string) returns (found: Option<string>)
    ensures found.Some? ==> found.value == FirstCategory(cats, genre, 0)
    ensures found.None? ==> FirstCategory(cats, genre, 0) == Uncategorized
    ensures found.None? <==> forall k :: 0 <= k < |cats| ==> genre !in cats[k].1
  {
    for ci := 0 to |cats|
      invariant FirstCategory(cats, genre, ci) == FirstCategory(cats, genre, 0)
      invariant forall k :: 0 <= k < ci ==> genre !in cats[k].1
    {
      var (category, subgenres) := cats[ci];
      if genre in subgenres {
        return Some(category);
      }
    }
    return None;
  }

  /**
   * Every genre of the normalised list lands in exactly one bucket, its category's, with
   * its number of occurrences, and the bucket counts add up to the number of pieces.
   */
  lemma CollectedTree(genres: seq<string>)
    ensures var s := Normalized(genres); var tree := TreeOf(Tally(s));
      Filed(tree) &&
      multiset(Flat(tree)) == multiset(Tally(s)) &&
      Total(Flat(tree)) == |s|
    ensures var s := Normalized(genres); var tree := TreeOf(Tally(s));
      forall g :: g in s ==> exists j :: 0 <= j < |tree| && tree[j].0 == CategoryOf(g) && (g, multiset(s)[g]) in tree[j].1
  {
    var s := Normalized(genres);
    var tree := TreeOf(Tally(s));
    TreeOfShape(Tally(s));
    TallyTotal(s);
    forall g | g in s
      ensures exists j :: 0 <= j < |tree| && tree[j].0 == CategoryOf(g) && (g, multiset(s)[g]) in tree[j].1
    {
      TallyEntry(s, g);
      FiledMember(tree, (g, multiset(s)[g]));
    }
  }

  /** Every genre of the list is counted with its number of occurrences. */
  lemma TallyEntry(s: seq<string>, g: string)
    requires g in s
    ensures (g, multiset(s)[g]) in multiset(Tally(s))
  {
    var counts := Tally(s);
    TallyCounts(s);
    assert HasKey(counts, g);
    var i :| 0 <= i < |counts| && counts[i].0 == g;
    assert counts[i] == (g, multiset(s)[g]);
  }

  /** An entry of a filed tree sits in the bucket of its own category. */
  lemma FiledMember(tree: Dict<string, seq<(string, nat)>>, e: (string, nat))
    requires Filed(tree) && e in multiset(Flat(tree))
    ensures exists j :: 0 <= j < |tree| && tree[j].0 == CategoryOf(e.0) && e in tree[j].1
  {
    assert e in Flat(tree);
    FlatMember(tree, e);
    var j :| 0 <= j < |tree| && e in tree[j].1;
    var k :| 0 <= k < |tree[j].1| && tree[j].1[k] == e;
  }

  /** An entry of the flattened tree sits in one of its buckets. */
  lemma {:induction false} FlatMember(tree: Dict<string, seq<(string, nat)>>, e: (string, nat))
    requires e in Flat(tree)
    ensures exists j :: 0 <= j < |tree| && e in tree[j].1
  {
    if e !in tree[0].1 {
      FlatMember(tree[1..], e);
      var j :| 0 <= j < |tree[1..]| && e in tree[1..][j].1;
      assert tree[j + 1] == tree[1..][j];
    }
  }
}

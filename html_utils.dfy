/**
 * The lineup name pipeline of `extract_artist_info`: the scraped span texts
 * are deduplicated (`unique`), each is stripped of a parenthetical suffix and
 * of surrounding whitespace, and the list is stably sorted by `sort_name`.
 * Fetching the page and selecting the spans are not modelled: the span texts
 * are the input.
 */
module HtmlUtils {
  import opened Wrappers
  import opened Seqs
  import opened Strings
  import opened Sorting

  // ---------------------------------------------------------------------
  // unique: `type(content)(set(content))`

  lemma {:induction false} DistinctArrangementExists<T>(content: seq<T>)
    ensures exists r :: IsDistinctArrangement(r, content)
  {
    if content == [] {
      assert IsDistinctArrangement([], content);
    } else {
      DistinctArrangementExists(content[1..]);
      var r' :| IsDistinctArrangement(r', content[1..]);
      assert Elements(content) == {content[0]} + Elements(content[1..]);
      if content[0] in r' {
        assert IsDistinctArrangement(r', content);
      } else {
        var r := [content[0]] + r';
        assert Elements(r) == {content[0]} + Elements(r');
        assert IsDistinctArrangement(r, content);
      }
    }
  }

  /**
   * The distinct elements of `content`, each once. Python builds the list
   * from a set, so the order is unspecified: this is some arrangement of
   * them, and nothing below depends on which one.
   */
  ghost function Unique<T(!new)>(content: seq<T>): (r: seq<T>)
    ensures NoDups(r)
    ensures forall x :: x in r <==> x in content
    ensures |r| == |Elements(content)|
  {
    DistinctArrangementExists(content);
    var r :| IsDistinctArrangement(r, content);
    NoDupsCardinality(r);
    assert forall x :: x in r <==> x in Elements(r);
    r
  }

  // ---------------------------------------------------------------------
  // sort_name: `re.compile(r"^the\ ").sub("", name.lower()).strip()`

  /** Removes one "the " at the very start of `s` (the anchored regex). */
  function DropArticle(s: string): string {
    if |s| >= 4 && s[..4] == "the " then s[4..] else s
  }

  /** The sort key of an artist name. */
  function SortName(name: string): string {
    Strip(DropArticle(Lower(name)))
  }

  /** A leading "the " in any letter case is ignored, and so is the whitespace after it. */
  lemma SortNameIgnoresArticle(article: string, rest: string)
    requires Lower(article) == "the "
    ensures SortName(article + rest) == Strip(Lower(rest))
  {
    LowerAppend(article, rest);
    var l := Lower(article + rest);
    assert l[..4] == "the " && l[4..] == Lower(rest);
  }

  /** A name that does not start with "the " is only lowercased and stripped. */
  lemma SortNameWithoutArticle(name: string)
    requires |name| < 4 || Lower(name[..4]) != "the "
    ensures SortName(name) == Strip(Lower(name))
  {
    if |name| >= 4 {
      assert Lower(name)[..4] == Lower(name[..4]);
    }
  }

  /** Only one article is dropped. */
  lemma SortNameDropsOneArticle()
    ensures SortName("The The Band") == "the band"
  {
    assert Lower("The The Band") == "the the band";
    assert DropArticle("the the band") == "the band";
    StripNoop("the band");
  }

  /** "Theory" and a bare "the" have no article followed by a space. */
  lemma SortNameKeepsNonArticles()
    ensures SortName("Theory") == "theory"
    ensures SortName("the") == "the"
  {
    assert Lower("Theory") == "theory";
    assert "theory"[..4][3] != "the "[3];
    assert DropArticle("theory") == "theory";
    StripNoop("theory");
    assert Lower("the") == "the";
    assert DropArticle("the") == "the";
    StripNoop("the");
  }

  /** The key does not depend on letter case. */
  lemma SortNameCaseInsensitive(name: string)
    ensures SortName(Lower(name)) == SortName(name)
  {
    LowerIdempotent(name);
  }

  // ---------------------------------------------------------------------
  // The normalisation `re.sub(r"\ \(.+\)", "", name).strip()`

  /**
   * `s[i..j]` is a match of the pattern ` \(.+\)`: a space, "(", at least
   * one character other than a newline, ")".
   */
  ghost predicate MatchAt(s: string, i: int, j: int) {
    && 0 <= i && i + 4 <= j <= |s|
    && OpensAt(s, i) && s[j - 1] == ')'
    && forall k :: i + 2 <= k < j - 1 ==> s[k] != '\n'
  }

  /** Every match of the pattern in `s` lies inside `s[i..j]`. */
  ghost predicate CoversAllMatches(s: string, i: int, j: int) {
    forall i', j' :: MatchAt(s, i', j') ==> i <= i' && j' <= j
  }

  /** " (" occurs in `s` at index `k`. */
  predicate OpensAt(s: string, k: int) {
    0 <= k < |s| - 1 && s[k] == ' ' && s[k + 1] == '('
  }

  /** The index of the first " (" in `s`. */
  function FirstOpen(s: string): (r: Option<nat>)
    ensures r.Some? ==> r.value + 1 < |s|
  {
    if |s| < 2 then None
    else if s[0] == ' ' && s[1] == '(' then Some(0)
    else match FirstOpen(s[1..])
      case None => None
      case Some(k) => Some(k + 1)
  }

  lemma {:induction false} FirstOpenSpec(s: string)
    ensures FirstOpen(s).Some? ==> OpensAt(s, FirstOpen(s).value)
    ensures forall k :: OpensAt(s, k) ==> FirstOpen(s).Some? && FirstOpen(s).value <= k
  {
    if |s| >= 2 && !(s[0] == ' ' && s[1] == '(') {
      FirstOpenSpec(s[1..]);
      forall k | OpensAt(s, k) ensures OpensAt(s[1..], k - 1) {
      }
    }
  }

  /** Without a "(" there is no " (". */
  lemma NoOpenWithoutParenthesis(s: string)
    requires '(' !in s
    ensures forall k :: !OpensAt(s, k)
  {
    forall k | 1 <= k < |s| ensures s[k] != '(' {
      assert s[k] in s;
    }
  }

  /** The index of the last ")" in `s`. */
  function LastClose(s: string): (r: Option<nat>)
    ensures r.Some? ==> r.value < |s|
  {
    if s == [] then None
    else if s[|s| - 1] == ')' then Some(|s| - 1)
    else LastClose(s[..|s| - 1])
  }

  lemma {:induction false} LastCloseSpec(s: string)
    ensures LastClose(s).Some? ==> s[LastClose(s).value] == ')'
    ensures forall k :: 0 <= k < |s| && s[k] == ')' ==> LastClose(s).Some? && k <= LastClose(s).value
  {
    if s != [] && s[|s| - 1] != ')' {
      LastCloseSpec(s[..|s| - 1]);
      forall k | 0 <= k < |s| && s[k] == ')' ensures k < |s| - 1 && s[..|s| - 1][k] == ')' {
      }
    }
  }

  /**
   * The span the substitution removes from a line: from the first " (" to
   * the last ")", when at least one character lies between them.
   */
  function ParenSpan(line: string): Option<(nat, nat)> {
    match (FirstOpen(line), LastClose(line))
    case (Some(p), Some(q)) => if q >= p + 3 then Some((p, q + 1)) else None
    case _ => None
  }

  /**
   * On a line, `ParenSpan` finds a match exactly when there is one, and the
   * match it finds is the leftmost one, extended as far as it goes (`.+` is
   * greedy) and covering every other match, so no second substitution
   * happens.
   */
  lemma ParenSpanIsLeftmostLongest(line: string)
    requires '\n' !in line
    ensures ParenSpan(line).None? <==> forall i, j :: !MatchAt(line, i, j)
    ensures ParenSpan(line).Some? ==>
              && MatchAt(line, ParenSpan(line).value.0, ParenSpan(line).value.1)
              && CoversAllMatches(line, ParenSpan(line).value.0, ParenSpan(line).value.1)
  {
    var p, q := FirstOpen(line), LastClose(line);
    FirstOpenSpec(line);
    LastCloseSpec(line);
    forall i, j | MatchAt(line, i, j)
      ensures p.Some? && q.Some? && p.value <= i && j - 1 <= q.value && q.value >= p.value + 3
    {
    }
    if p.Some? && q.Some? && q.value >= p.value + 3 {
      assert ParenSpan(line) == Some((p.value, q.value + 1));
      forall k | p.value + 2 <= k < q.value ensures line[k] != '\n' {
        assert line[k] in line;
      }
      assert MatchAt(line, p.value, q.value + 1);
    }
  }

  /** `re.sub` on one line. */
  function SubstituteLine(line: string): string {
    match ParenSpan(line)
    case None => line
    case Some((i, j)) => line[..i] + line[j..]
  }

  /** The index of the first newline in `s`. */
  function FirstNewline(s: string): (r: Option<nat>)
    ensures r.Some? ==> r.value < |s|
  {
    if s == [] then None
    else if s[0] == '\n' then Some(0)
    else match FirstNewline(s[1..])
      case None => None
      case Some(k) => Some(k + 1)
  }

  lemma {:induction false} FirstNewlineSpec(s: string)
    ensures FirstNewline(s).None? <==> '\n' !in s
  {
    if s != [] && s[0] != '\n' {
      FirstNewlineSpec(s[1..]);
      assert s == [s[0]] + s[1..];
    }
  }

  /**
   * `re.sub(r"\ \(.+\)", "", s)`. Since neither the pattern's literals nor
   * `.` match a newline, every match lies within one line, and each line is
   * substituted on its own.
   */
  function RemoveParenthetical(s: string): string
    decreases |s|
  {
    match FirstNewline(s)
    case None => SubstituteLine(s)
    case Some(k) => SubstituteLine(s[..k]) + "\n" + RemoveParenthetical(s[k + 1..])
  }

  /** A scraped name as the lineup keeps it. */
  function Normalize(name: string): string {
    Strip(RemoveParenthetical(name))
  }

  /** A name on one line is substituted as that line. */
  lemma NormalizeOneLine(name: string)
    requires '\n' !in name
    ensures Normalize(name) == Strip(SubstituteLine(name))
  {
    FirstNewlineSpec(name);
    assert RemoveParenthetical(name) == SubstituteLine(name);
  }

  /** A name without a match of the pattern is only stripped. */
  lemma NormalizeWithoutMatch(name: string)
    requires '\n' !in name
    requires forall i, j :: !MatchAt(name, i, j)
    ensures Normalize(name) == Strip(name)
  {
    NormalizeOneLine(name);
    ParenSpanIsLeftmostLongest(name);
  }

  /** A one-line name without " (" and without whitespace at its ends is kept as it is. */
  lemma NormalizeKeepsPlain(name: string)
    requires '\n' !in name && forall k :: !OpensAt(name, k)
    requires name == [] || (!IsSpace(name[0]) && !IsSpace(name[|name| - 1]))
    ensures Normalize(name) == name
  {
    FirstOpenSpec(name);
    NormalizeOneLine(name);
    StripNoop(name);
  }

  /** A name with a match loses the match that covers all others, then is stripped. */
  lemma NormalizeWithMatch(name: string, i: int, j: int)
    requires '\n' !in name
    requires MatchAt(name, i, j) && CoversAllMatches(name, i, j)
    ensures Normalize(name) == Strip(name[..i] + name[j..])
  {
    NormalizeOneLine(name);
    ParenSpanIsLeftmostLongest(name);
    assert ParenSpan(name).Some?;
    var span := ParenSpan(name).value;
    assert span.0 <= i && j <= span.1;
    assert MatchAt(name, span.0, span.1);
    assert i <= span.0 && span.1 <= j;
    assert SubstituteLine(name) == name[..i] + name[j..];
  }

  // Each example below is put together from one-step lemmas, so that the
  // verifier evaluates only one function on a literal at a time.

  lemma FooIsStripped()
    ensures Strip("Foo") == "Foo"
  {
    StripNoop("Foo");
  }

  lemma FooDkSubstituted()
    ensures SubstituteLine("Foo (DK)") == "Foo"
  {
    var s := "Foo (DK)";
    assert FirstOpen(s) == Some(3);
    assert LastClose(s) == Some(7);
    assert s[..3] + s[8..] == "Foo";
  }

  /** A parenthetical country suffix is removed. */
  lemma NormalizeDropsSuffix()
    ensures Normalize("Foo (DK)") == "Foo"
  {
    NormalizeOneLine("Foo (DK)");
    FooDkSubstituted();
    FooIsStripped();
  }

  /** A name without a parenthetical is kept. */
  lemma NormalizeKeepsPlainName()
    ensures Normalize("Foo") == "Foo"
  {
    NoOpenWithoutParenthesis("Foo");
    NormalizeKeepsPlain("Foo");
  }

  lemma TwoSuffixesSubstituted()
    ensures SubstituteLine("Foo (a) (b)") == "Foo"
  {
    var s := "Foo (a) (b)";
    assert FirstOpen(s) == Some(3);
    assert LastClose(s) == Some(10);
    assert s[..3] + s[11..] == "Foo";
  }

  /** Two parentheticals go at once, from the first " (" to the last ")". */
  lemma NormalizeDropsAllSuffixes()
    ensures Normalize("Foo (a) (b)") == "Foo"
  {
    NormalizeOneLine("Foo (a) (b)");
    TwoSuffixesSubstituted();
    FooIsStripped();
  }

  lemma EmptyParenthesesSubstituted()
    ensures SubstituteLine("Foo ()") == "Foo ()"
  {
    var s := "Foo ()";
    assert FirstOpen(s) == Some(3);
    assert LastClose(s) == Some(5);
  }

  lemma EmptyParenthesesStripped()
    ensures Strip("Foo ()") == "Foo ()"
  {
    StripNoop("Foo ()");
  }

  /** Without a character between the parentheses there is no match. */
  lemma NormalizeNeedsParenthesisContent()
    ensures Normalize("Foo ()") == "Foo ()"
  {
    NormalizeOneLine("Foo ()");
    EmptyParenthesesSubstituted();
    EmptyParenthesesStripped();
  }

  // ---------------------------------------------------------------------
  // extract_artist_info, from the span texts on

  /** `sorted(..., key=sort_name)` compares the keys with `<`. */
  predicate ByName(a: string, b: string) {
    LexLe(SortName(a), SortName(b))
  }

  lemma ByNameIsTotalPreorder()
    ensures TotalPreorder(ByName)
  {
    forall x, y ensures ByName(x, y) || ByName(y, x) {
      LexLeTotal(SortName(x), SortName(y));
    }
    forall x, y, z | ByName(x, y) && ByName(y, z) ensures ByName(x, z) {
      LexLeTransitive(SortName(x), SortName(y), SortName(z));
    }
  }

  /** The lineup built from the scraped span texts. */
  ghost function ExtractArtistNames(spans: seq<string>): (names: seq<string>)
    ensures |names| == |Elements(spans)|
  {
    SortBy(Map(Normalize, Unique(spans)), ByName)
  }

  /** The elements of `content` that `f` sends to `y`. */
  ghost function Preimage<T>(f: T -> T, content: seq<T>, y: T): set<T> {
    set x | x in content && f(x) == y
  }

  lemma {:induction false} MapCount<T>(f: T -> T, u: seq<T>, y: T)
    requires NoDups(u)
    ensures multiset(Map(f, u))[y] == |Preimage(f, u, y)|
  {
    if u == [] {
      assert Preimage(f, u, y) == {};
    } else {
      assert NoDups(u[1..]);
      MapCount(f, u[1..], y);
      var rest := Preimage(f, u[1..], y);
      assert Map(f, u) == [f(u[0])] + Map(f, u[1..]);
      assert u[0] !in rest;
      if f(u[0]) == y {
        assert Preimage(f, u, y) == {u[0]} + rest;
      } else {
        assert Preimage(f, u, y) == rest;
      }
    }
  }

  /** Mapping any arrangement of the distinct elements of `content` gives the same multiset. */
  lemma ArrangementCount<T(!new)>(f: T -> T, u: seq<T>, content: seq<T>, y: T)
    requires NoDups(u) && forall x :: x in u <==> x in content
    ensures multiset(Map(f, u))[y] == |Preimage(f, content, y)|
  {
    MapCount(f, u, y);
    assert Preimage(f, u, y) == Preimage(f, content, y);
  }

  /**
   * How often a name occurs in the lineup: once per distinct span text that
   * normalises to it. Texts that differ only in a parenthetical suffix
   * ("Foo (DK)", "Foo") therefore both survive.
   */
  lemma ExtractArtistNamesCount(spans: seq<string>, y: string)
    ensures multiset(ExtractArtistNames(spans))[y] == |Preimage(Normalize, spans, y)|
  {
    ArrangementCount(Normalize, Unique(spans), spans, y);
  }

  /** Every entry of the lineup is the normalisation of some span text. */
  lemma ExtractArtistNamesEntry(spans: seq<string>, y: string)
    requires y in ExtractArtistNames(spans)
    ensures Preimage(Normalize, spans, y) != {}
  {
    ExtractArtistNamesCount(spans, y);
  }

  /** The lineup is ordered by sort key, ties keeping the order of the deduplicated list. */
  lemma ExtractArtistNamesOrder(spans: seq<string>)
    ensures Sorted(ExtractArtistNames(spans), ByName)
    ensures exists u :: && IsDistinctArrangement(u, spans)
                        && ExtractArtistNames(spans) == SortBy(Map(Normalize, u), ByName)
  {
    ByNameIsTotalPreorder();
    SortBySorted(Map(Normalize, Unique(spans)), ByName);
    var u := Unique(spans);
    assert Elements(u) == Elements(spans);
    assert IsDistinctArrangement(u, spans);
  }

  /**
   * When the span texts are distinct, already normalised and no two share a
   * sort key, the lineup is their one sorted arrangement, whatever order
   * `unique` produced.
   */
  lemma ExtractArtistNamesDetermined(spans: seq<string>, expected: seq<string>)
    requires NoDups(spans) && forall x :: x in spans ==> Normalize(x) == x
    requires forall x, y :: x in spans && y in spans && Tied(ByName, x, y) ==> x == y
    requires multiset(expected) == multiset(spans) && Sorted(expected, ByName)
    ensures ExtractArtistNames(spans) == expected
  {
    var names := ExtractArtistNames(spans);
    NormalisedLineup(spans);
    ByNameIsTotalPreorder();
    SortBySorted(Unique(spans), ByName);
    forall x, y | x in names && y in names && Tied(ByName, x, y) ensures x == y {
      assert x in multiset(spans) && y in multiset(spans);
    }
    SortedUnique(names, expected, ByName);
  }

  /** Distinct, already normalised span texts are only rearranged. */
  lemma NormalisedLineup(spans: seq<string>)
    requires NoDups(spans) && forall x :: x in spans ==> Normalize(x) == x
    ensures ExtractArtistNames(spans) == SortBy(Unique(spans), ByName)
    ensures multiset(ExtractArtistNames(spans)) == multiset(spans)
  {
    var u := Unique(spans);
    MapFixed(Normalize, u);
    assert Elements(u) == Elements(spans);
    SameElementsSameMultiset(u, spans);
  }

  /** Two plain names with distinct keys come out in key order, whatever order they were scraped in. */
  lemma ExtractArtistNamesOrdersTwo(a: string, b: string)
    requires Normalize(a) == a && Normalize(b) == b
    requires LexLe(SortName(a), SortName(b)) && !LexLe(SortName(b), SortName(a))
    ensures ExtractArtistNames([b, a]) == [a, b]
  {
    TwoNamesInKeyOrder(a, b);
    ExtractArtistNamesDetermined([b, a], [a, b]);
  }

  /** The premises of `ExtractArtistNamesDetermined` for two names with distinct keys. */
  lemma TwoNamesInKeyOrder(a: string, b: string)
    requires Normalize(a) == a && Normalize(b) == b
    requires ByName(a, b) && !ByName(b, a)
    ensures var spans := [b, a];
      && NoDups(spans) && (forall x :: x in spans ==> Normalize(x) == x)
      && (forall x, y :: x in spans && y in spans && Tied(ByName, x, y) ==> x == y)
      && multiset([a, b]) == multiset(spans) && Sorted([a, b], ByName)
  {
    PairHasNoDups(a, b);
    PairHasNoTies(a, b);
    PairSorted(a, b);
  }

  lemma PairHasNoDups(a: string, b: string)
    requires ByName(a, b) && !ByName(b, a)
    ensures NoDups([b, a])
  {
    assert a != b;
  }

  lemma PairHasNoTies(a: string, b: string)
    requires ByName(a, b) && !ByName(b, a)
    ensures forall x, y :: x in [b, a] && y in [b, a] && Tied(ByName, x, y) ==> x == y
  {
    forall x, y | x in [b, a] && y in [b, a] && Tied(ByName, x, y) ensures x == y {
      assert x == a || x == b;
      assert y == a || y == b;
    }
  }

  lemma PairSorted(a: string, b: string)
    requires ByName(a, b)
    ensures Sorted([a, b], ByName)
  {
  }

  lemma TheBandIsPlain()
    ensures Normalize("The Band") == "The Band"
  {
    NoOpenWithoutParenthesis("The Band");
    NormalizeKeepsPlain("The Band");
  }

  lemma QueenIsPlain()
    ensures Normalize("Queen") == "Queen"
  {
    NoOpenWithoutParenthesis("Queen");
    NormalizeKeepsPlain("Queen");
  }

  lemma TheBandSortsAsBand()
    ensures SortName("The Band") == "band"
  {
    SortNameIgnoresArticle("The ", "Band");
    assert "The Band" == "The " + "Band";
    assert Lower("Band") == "band";
    StripNoop("band");
  }

  lemma QueenSortsAsQueen()
    ensures SortName("Queen") == "queen"
  {
    assert Lower("Queen"[..4]) == "quee";
    SortNameWithoutArticle("Queen");
    assert Lower("Queen") == "queen";
    StripNoop("queen");
  }

  /** "The Band" files under B, so it comes before "Queen". */
  lemma ExtractArtistNamesExample()
    ensures ExtractArtistNames(["Queen", "The Band"]) == ["The Band", "Queen"]
  {
    TheBandIsPlain();
    QueenIsPlain();
    TheBandSortsAsBand();
    QueenSortsAsQueen();
    assert LexLe("band", "queen") && !LexLe("queen", "band");
    ExtractArtistNamesOrdersTwo("The Band", "Queen");
  }

  /** Two distinct texts that normalise to the same name both stay in the lineup. */
  lemma ExtractArtistNamesKeepsDuplicates(a: string, b: string)
    requires a != b && Normalize(a) == Normalize(b)
    ensures ExtractArtistNames([a, b]) == [Normalize(a), Normalize(a)]
  {
    var spans := [a, b];
    var names := ExtractArtistNames(spans);
    PairElements(a, b);
    forall k | 0 <= k < |names| ensures names[k] == Normalize(a) {
      ExtractArtistNamesEntry(spans, names[k]);
      PairPreimage(a, b, names[k]);
    }
  }

  lemma PairElements(a: string, b: string)
    requires a != b
    ensures |Elements([a, b])| == 2
  {
    assert Elements([a, b]) == {a, b};
  }

  /** A name reached from a pair with one normal form is that normal form. */
  lemma PairPreimage(a: string, b: string, y: string)
    requires Normalize(a) == Normalize(b)
    requires Preimage(Normalize, [a, b], y) != {}
    ensures y == Normalize(a)
  {
    var x :| x in Preimage(Normalize, [a, b], y);
  }

  /** Three plain names with strictly increasing keys come out in key order from the reverse scrape order. */
  lemma ExtractArtistNamesOrdersThree(a: string, b: string, c: string)
    requires Normalize(a) == a && Normalize(b) == b && Normalize(c) == c
    requires ByName(a, b) && !ByName(b, a) && ByName(b, c) && !ByName(c, b)
    ensures ExtractArtistNames([c, b, a]) == [a, b, c]
  {
    ThreeNamesInKeyOrder(a, b, c);
    ExtractArtistNamesDetermined([c, b, a], [a, b, c]);
  }

  /** The premises of `ExtractArtistNamesDetermined` for three names with increasing keys. */
  lemma ThreeNamesInKeyOrder(a: string, b: string, c: string)
    requires Normalize(a) == a && Normalize(b) == b && Normalize(c) == c
    requires ByName(a, b) && !ByName(b, a) && ByName(b, c) && !ByName(c, b)
    ensures var spans := [c, b, a];
      && NoDups(spans) && (forall x :: x in spans ==> Normalize(x) == x)
      && (forall x, y :: x in spans && y in spans && Tied(ByName, x, y) ==> x == y)
      && multiset([a, b, c]) == multiset(spans) && Sorted([a, b, c], ByName)
  {
    KeysChain(a, b, c);
    TripleHasNoDups(a, b, c);
    TripleHasNoTies(a, b, c);
    TripleSorted(a, b, c);
  }

  /** Strict key order is transitive. */
  lemma KeysChain(a: string, b: string, c: string)
    requires ByName(a, b) && !ByName(b, a) && ByName(b, c) && !ByName(c, b)
    ensures ByName(a, c) && !ByName(c, a)
  {
    ByNameIsTotalPreorder();
  }

  lemma TripleHasNoDups(a: string, b: string, c: string)
    requires !ByName(b, a) && !ByName(c, b) && !ByName(c, a)
    ensures NoDups([c, b, a])
  {
    ByNameIsTotalPreorder();
  }

  lemma TripleHasNoTies(a: string, b: string, c: string)
    requires !ByName(b, a) && !ByName(c, b) && !ByName(c, a)
    ensures forall x, y :: x in [c, b, a] && y in [c, b, a] && Tied(ByName, x, y) ==> x == y
  {
    forall x, y | x in [c, b, a] && y in [c, b, a] && Tied(ByName, x, y) ensures x == y {
      assert x == a || x == b || x == c;
      assert y == a || y == b || y == c;
    }
  }

  lemma TripleSorted(a: string, b: string, c: string)
    requires ByName(a, b) && ByName(b, c) && ByName(a, c)
    ensures Sorted([a, b, c], ByName)
  {
  }

  lemma TheWhoIsPlain()
    ensures Normalize("The Who") == "The Who"
  {
    NoOpenWithoutParenthesis("The Who");
    NormalizeKeepsPlain("The Who");
  }

  lemma TheBeatlesIsPlain()
    ensures Normalize("the Beatles") == "the Beatles"
  {
    NoOpenWithoutParenthesis("the Beatles");
    NormalizeKeepsPlain("the Beatles");
  }

  lemma TheWhoSortsAsWho()
    ensures SortName("The Who") == "who"
  {
    SortNameIgnoresArticle("The ", "Who");
    assert "The Who" == "The " + "Who";
    assert Lower("Who") == "who";
    StripNoop("who");
  }

  lemma TheBeatlesSortsAsBeatles()
    ensures SortName("the Beatles") == "beatles"
  {
    SortNameIgnoresArticle("the ", "Beatles");
    assert "the Beatles" == "the " + "Beatles";
    BeatlesLowered();
    StripNoop("beatles");
  }

  // Lowercasing a literal is costly to evaluate beside other literal facts.
  lemma BeatlesLowered()
    ensures Lower("Beatles") == "beatles"
  {
  }

  /** The articles are ignored whatever their case: B, Q, W. */
  lemma ExtractArtistNamesExampleThree()
    ensures ExtractArtistNames(["The Who", "Queen", "the Beatles"]) == ["the Beatles", "Queen", "The Who"]
  {
    TheWhoIsPlain();
    QueenIsPlain();
    TheBeatlesIsPlain();
    TheWhoSortsAsWho();
    QueenSortsAsQueen();
    TheBeatlesSortsAsBeatles();
    assert LexLe("beatles", "queen") && !LexLe("queen", "beatles");
    assert LexLe("queen", "who") && !LexLe("who", "queen");
    ExtractArtistNamesOrdersThree("the Beatles", "Queen", "The Who");
  }

  /** "Foo (DK)" and "Foo" both give "Foo", and both are listed. */
  lemma ExtractArtistNamesKeepsBoth()
    ensures ExtractArtistNames(["Foo (DK)", "Foo"]) == ["Foo", "Foo"]
  {
    NormalizeDropsSuffix();
    NormalizeKeepsPlainName();
    ExtractArtistNamesKeepsDuplicates("Foo (DK)", "Foo");
  }
}

/**
 * Search of venues and artists by name.
 *
 * The handlers build the SQL pattern `'%' + search_term + '%'` and match it
 * with PostgreSQL's ILIKE against every name. The term is not escaped, so a
 * `%` in it matches any run of characters, a `_` any single character, and a
 * backslash (LIKE's default escape character) makes the next character
 * literal. ILIKE compares without regard to case; case folding is modelled
 * for the ASCII letters.
 */
module Search {
  import opened Schema
  import opened Seqs
  import opened Classifier

  // ---------------------------------------------------------------------------
  // Case folding

  function Lower(c: char): (l: char)
    ensures 'A' <= c <= 'Z' ==> l as int == c as int + 32
    ensures !('A' <= c <= 'Z') ==> l == c
  {
    if 'A' <= c <= 'Z' then (c as int + 32) as char else c
  }

  function LowerStr(s: string): (l: string)
    ensures |l| == |s|
  {
    seq(|s|, i requires 0 <= i < |s| => Lower(s[i]))
  }

  /** `t` occurs in `u` as a contiguous piece: it is a prefix of some suffix of `u`. */
  ghost predicate IsSubstring(t: string, u: string)
  {
    exists i :: 0 <= i <= |u| && t <= u[i..]
  }

  // ---------------------------------------------------------------------------
  // LIKE patterns

  datatype Token = Lit(c: char) | AnyOne | AnyRun

  /** The meaning of an unescaped pattern character. */
  function TokenOf(c: char): Token
  {
    if c == '%' then AnyRun else if c == '_' then AnyOne else Lit(c)
  }

  function Prepend(t: Token, ts: Option<seq<Token>>): (r: Option<seq<Token>>)
    ensures r.Some? == ts.Some?
  {
    match ts
    case None => None
    case Some(rest) => Some([t] + rest)
  }

  /**
   * Reads a LIKE pattern: `%` is any run, `_` any one character, a backslash
   * makes the next character literal. A pattern that ends in a lone backslash
   * is rejected up front (None); PostgreSQL itself raises that error only when
   * matching reaches the trailing escape, a difference that never arises for
   * the search pattern, which ends in `%`. Only such a pattern is rejected, and
   * a pattern without backslashes is read one character at a time.
   */
  function Tokenize(p: string): (r: Option<seq<Token>>)
    ensures r.None? ==> p != [] && p[|p| - 1] == '\\'
    ensures (forall i :: 0 <= i < |p| ==> p[i] != '\\') ==>
      r.Some? && |r.value| == |p| && forall i :: 0 <= i < |p| ==> r.value[i] == TokenOf(p[i])
  {
    if p == [] then Some([])
    else if p[0] == '\\' then
      if |p| == 1 then None else Prepend(Lit(p[1]), Tokenize(p[2..]))
    else
      assert forall i :: 0 <= i < |p| - 1 ==> p[1..][i] == p[i + 1];
      Prepend(TokenOf(p[0]), Tokenize(p[1..]))
  }

  /**
   * Whether the tokens match the whole of `s`, comparing letters without regard
   * to case. A non-empty pattern made only of runs matches every string;
   * a pattern without runs matches only strings of its own length.
   */
  function Matches(p: seq<Token>, s: string): (r: bool)
    ensures p != [] && (forall k :: 0 <= k < |p| ==> p[k] == AnyRun) ==> r
    ensures (forall k :: 0 <= k < |p| ==> p[k] != AnyRun) && r ==> |s| == |p|
    decreases |p|, |s|
  {
    if p == [] then s == []
    else
      assert forall k :: 0 <= k < |p| - 1 ==> p[1..][k] == p[k + 1];
      match p[0]
      case AnyRun => Matches(p[1..], s) || (s != [] && Matches(p, s[1..]))
      case AnyOne => s != [] && Matches(p[1..], s[1..])
      case Lit(c) => s != [] && Lower(s[0]) == Lower(c) && Matches(p[1..], s[1..])
  }

  /** The pattern the search handlers build around the term. */
  function ContainsPattern(term: string): (p: string)
    ensures |p| == |term| + 2 && p[0] == '%' && p[|p| - 1] == '%'
    ensures p[1..|p| - 1] == term
  {
    "%" + term + "%"
  }

  /**
   * `name ILIKE pattern`: None when the pattern is rejected, which happens
   * only for a pattern ending in a lone backslash, otherwise whether the name
   * matches. A non-empty pattern of `%` signs alone matches every name.
   */
  function ILike(name: string, pattern: string): (r: Option<bool>)
    ensures r.None? ==> pattern != [] && pattern[|pattern| - 1] == '\\'
    ensures pattern != [] && (forall i :: 0 <= i < |pattern| ==> pattern[i] == '%') ==> r == Some(true)
  {
    match Tokenize(pattern)
    case None => None
    case Some(ts) => Some(Matches(ts, name))
  }

  /** A term in which no character has a meaning to LIKE. */
  ghost predicate PlainTerm(term: string)
  {
    forall i :: 0 <= i < |term| ==> term[i] != '%' && term[i] != '_' && term[i] != '\\'
  }

  function Lits(w: string): (ts: seq<Token>)
    ensures |ts| == |w|
  {
    if w == [] then [] else [Lit(w[0])] + Lits(w[1..])
  }

  // ---------------------------------------------------------------------------
  // Facts about patterns

  /** One unescaped character is read on its own. */
  lemma TokenizeStep(c: char, rest: string)
    requires c != '\\'
    ensures Tokenize([c] + rest) == Prepend(TokenOf(c), Tokenize(rest))
  {
    assert ([c] + rest)[1..] == rest;
  }

  /** A plain term followed by `%` reads as its letters followed by a run. */
  lemma {:induction false} TokenizePlain(w: string)
    requires PlainTerm(w)
    ensures Tokenize(w + "%") == Some(Lits(w) + [AnyRun])
  {
    if w == [] {
      assert w + "%" == ['%'] + [];
      TokenizeStep('%', []);
      assert Tokenize([]) == Some([]);
      assert Lits(w) + [AnyRun] == [AnyRun] + [];
    } else {
      assert (w + "%")[0] == w[0] && (w + "%")[1..] == w[1..] + "%";
      assert w[0] != '%' && w[0] != '_' && w[0] != '\\';
      assert Lits(w) + [AnyRun] == [Lit(w[0])] + (Lits(w[1..]) + [AnyRun]);
      assert PlainTerm(w[1..]) by {
        forall i | 0 <= i < |w[1..]| ensures w[1..][i] == w[i + 1] { }
      }
      TokenizePlain(w[1..]);
    }
  }

  /** Letters followed by a run match exactly the strings that start with those letters, ignoring case. */
  lemma {:induction false} LitsThenRun(w: string, s: string)
    ensures Matches(Lits(w) + [AnyRun], s) <==> LowerStr(w) <= LowerStr(s)
    decreases |w|
  {
    var p := Lits(w) + [AnyRun];
    if w == [] {
      assert p == [AnyRun];
    } else {
      assert p[0] == Lit(w[0]);
      assert p[1..] == Lits(w[1..]) + [AnyRun];
      if s != [] {
        LitsThenRun(w[1..], s[1..]);
        assert LowerStr(w)[1..] == LowerStr(w[1..]);
        assert LowerStr(s)[1..] == LowerStr(s[1..]);
        PrefixSplit(LowerStr(w), LowerStr(s));
      }
    }
  }

  /** A non-empty sequence is a prefix of another exactly when their heads agree and its tail is a prefix of the other's tail. */
  lemma PrefixSplit(a: string, b: string)
    requires a != [] && b != []
    ensures a <= b <==> a[0] == b[0] && a[1..] <= b[1..]
  {
    if a <= b {
      assert a[1..] == b[1..][..|a| - 1];
    }
    if a[0] == b[0] && a[1..] <= b[1..] {
      assert a == b[..|a|];
    }
  }

  /** A leading run lets the rest of the pattern match any suffix. */
  lemma {:induction false} RunThen(q: seq<Token>, s: string)
    ensures Matches([AnyRun] + q, s) <==> exists i :: 0 <= i <= |s| && Matches(q, s[i..])
    decreases |s|
  {
    var p := [AnyRun] + q;
    assert p[1..] == q;
    assert s[0..] == s;
    if s != [] {
      RunThen(q, s[1..]);
      if j :| 0 <= j <= |s| - 1 && Matches(q, s[1..][j..]) {
        assert s[1..][j..] == s[j + 1..];
      }
      if i :| 0 < i <= |s| && Matches(q, s[i..]) {
        assert s[1..][i - 1..] == s[i..];
      }
    }
  }

  /**
   * For a term without LIKE wildcards or escapes, `name ILIKE '%term%'`
   * holds exactly when the lower-cased term occurs in the lower-cased name.
   */
  lemma PlainTermMatchesSubstring(name: string, term: string)
    requires PlainTerm(term)
    ensures ILike(name, ContainsPattern(term)) == Some(IsSubstring(LowerStr(term), LowerStr(name)))
  {
    var q := Lits(term) + [AnyRun];
    PlainSearchTokens(term);
    RunThen(q, name);
    if Matches([AnyRun] + q, name) {
      var i :| 0 <= i <= |name| && Matches(q, name[i..]);
      LitsThenRun(term, name[i..]);
      assert LowerStr(name)[i..] == LowerStr(name[i..]);
    }
    if IsSubstring(LowerStr(term), LowerStr(name)) {
      var i :| 0 <= i <= |name| && LowerStr(term) <= LowerStr(name)[i..];
      LitsThenRun(term, name[i..]);
      assert LowerStr(name)[i..] == LowerStr(name[i..]);
    }
  }

  /** The search pattern of a plain term reads as a run, the term's letters, and a run. */
  lemma PlainSearchTokens(term: string)
    requires PlainTerm(term)
    ensures Tokenize(ContainsPattern(term)) == Some([AnyRun] + (Lits(term) + [AnyRun]))
  {
    TokenizePlain(term);
    assert ContainsPattern(term) == ['%'] + (term + "%");
    TokenizeStep('%', term + "%");
  }

  /**
   * A plain term is found in a name when its letters, case aside, stand at
   * position `at`.
   */
  lemma FoundAt(term: string, name: string, at: nat)
    requires PlainTerm(term)
    requires at + |term| <= |name|
    requires forall j :: 0 <= j < |term| ==> Lower(term[j]) == Lower(name[at + j])
    ensures ILike(name, ContainsPattern(term)) == Some(true)
  {
    PlainTermMatchesSubstring(name, term);
    OccursAt(term, name, at);
  }

  /** A plain term occurs in a name when its letters, case aside, stand at position `at`. */
  lemma OccursAt(term: string, name: string, at: nat)
    requires at + |term| <= |name|
    requires forall j :: 0 <= j < |term| ==> Lower(term[j]) == Lower(name[at + j])
    ensures IsSubstring(LowerStr(term), LowerStr(name))
  {
    assert LowerStr(term) <= LowerStr(name)[at..];
  }

  /** A term whose first letter, case aside, appears nowhere in a name does not occur in it. */
  lemma FirstLetterAbsent(term: string, name: string)
    requires term != []
    requires forall c :: c in name ==> Lower(c) != Lower(term[0])
    ensures !IsSubstring(LowerStr(term), LowerStr(name))
  {
    forall i | 0 <= i <= |name| ensures !(LowerStr(term) <= LowerStr(name)[i..]) {
      if i < |name| {
        assert name[i] in name;
        assert LowerStr(name)[i..][0] == Lower(name[i]) != LowerStr(term)[0];
      }
    }
  }

  /** The search pattern is never rejected by Tokenize, whatever the term: it ends in `%`. */
  lemma SearchPatternAccepted(term: string)
    ensures Tokenize(ContainsPattern(term)).Some?
  {
  }

  // ---------------------------------------------------------------------------
  // The search handlers

  /** The form has no `search_term` field: a client error. */
  datatype SearchError = MissingSearchTerm

  /** The dictionary the search pages render. */
  datatype SearchResponse = SearchResponse(count: nat, data: seq<EntitySummary>)

  /** Position i holds a name that matches the tokens. */
  function NameMask(names: seq<string>, ts: seq<Token>): (keep: seq<bool>)
    ensures |keep| == |names|
  {
    seq(|names|, i requires 0 <= i < |names| => Matches(ts, names[i]))
  }

  /** The name column of a table, in row order. */
  function Names<T>(rows: seq<T>, nameOf: T -> string): (names: seq<string>)
    ensures |names| == |rows|
  {
    seq(|rows|, i requires 0 <= i < |rows| => nameOf(rows[i]))
  }

  function VenueName(v: Venue): string { v.name }

  function ArtistName(a: Artist): string { a.name }

  /** The tokens of the search pattern; the pattern is always accepted (SearchPatternAccepted). */
  function SearchTokens(term: string): seq<Token>
  {
    SearchPatternAccepted(term);
    Tokenize(ContainsPattern(term)).value
  }

  /** The positions of the names that `name ILIKE '%term%'` accepts, ascending. */
  function Hits(names: seq<string>, term: string): (idx: seq<nat>)
    ensures Increasing(idx)
    ensures forall k :: 0 <= k < |idx| ==> idx[k] < |names|
    ensures forall i :: 0 <= i < |names| ==> (i in idx <==> ILike(names[i], ContainsPattern(term)) == Some(true))
  {
    var keep := NameMask(names, SearchTokens(term));
    KeptExactly(keep);
    SearchPatternAccepted(term);
    assert forall i :: 0 <= i < |names| ==> ILike(names[i], ContainsPattern(term)) == Some(keep[i]);
    Kept(keep)
  }

  /**
   * `search_venues`: the venues whose names match, in table order and
   * summarised, with their number. A form without the field is a client error.
   */
  function SearchVenues(form: map<string, string>, venues: seq<Venue>, now: int): (r: Result<SearchResponse, SearchError>)
    ensures "search_term" !in form <==> r.Failure?
    ensures r.Success? ==>
      var idx := Hits(Names(venues, VenueName), form["search_term"]);
      r.value.count == |r.value.data| == |idx| &&
      forall k :: 0 <= k < |idx| ==> r.value.data[k] == VenueSummaryAt(venues[idx[k]], now)
  {
    if "search_term" !in form then Failure(MissingSearchTerm)
    else
      var keep := NameMask(Names(venues, VenueName), SearchTokens(form["search_term"]));
      var result := Pick(venues, keep);
      PickAt(venues, keep);
      Success(SearchResponse(|result|, seq(|result|, k requires 0 <= k < |result| => VenueSummaryAt(result[k], now))))
  }

  /** `search_artists`: the artist analogue of SearchVenues. */
  function SearchArtists(form: map<string, string>, artists: seq<Artist>, now: int): (r: Result<SearchResponse, SearchError>)
    ensures "search_term" !in form <==> r.Failure?
    ensures r.Success? ==>
      var idx := Hits(Names(artists, ArtistName), form["search_term"]);
      r.value.count == |r.value.data| == |idx| &&
      forall k :: 0 <= k < |idx| ==> r.value.data[k] == ArtistSummaryAt(artists[idx[k]], now)
  {
    if "search_term" !in form then Failure(MissingSearchTerm)
    else
      var keep := NameMask(Names(artists, ArtistName), SearchTokens(form["search_term"]));
      var result := Pick(artists, keep);
      PickAt(artists, keep);
      Success(SearchResponse(|result|, seq(|result|, k requires 0 <= k < |result| => ArtistSummaryAt(result[k], now))))
  }

  /**
   * For a plain term, a name is among the hits exactly when the lower-cased
   * term occurs in the lower-cased name.
   */
  lemma HitsAreSubstringMatches(names: seq<string>, term: string)
    requires PlainTerm(term)
    ensures forall i :: 0 <= i < |names| ==>
      (i in Hits(names, term) <==> IsSubstring(LowerStr(term), LowerStr(names[i])))
  {
    forall i | 0 <= i < |names|
      ensures ILike(names[i], ContainsPattern(term)) == Some(IsSubstring(LowerStr(term), LowerStr(names[i])))
    {
      PlainTermMatchesSubstring(names[i], term);
    }
  }

  /** The empty term matches every name, so the search returns every venue, in table order. */
  lemma EmptyTermMatchesAll(form: map<string, string>, venues: seq<Venue>, now: int)
    requires "search_term" in form && form["search_term"] == ""
    ensures SearchVenues(form, venues, now).Success?
    ensures SearchVenues(form, venues, now).value.count == |venues|
    ensures var data := SearchVenues(form, venues, now).value.data;
      |data| == |venues| && forall k :: 0 <= k < |venues| ==> data[k] == VenueSummaryAt(venues[k], now)
  {
    var names := Names(venues, VenueName);
    assert PlainTerm("");
    HitsAreSubstringMatches(names, "");
    forall i | 0 <= i < |names| ensures i in Hits(names, "") {
      assert LowerStr("") <= LowerStr(names[i])[0..];
    }
    var keep := NameMask(names, SearchTokens(""));
    KeptExactly(keep);
    PickAll(venues, keep);
  }

  /** A `%` inside the term is a wildcard: the term "%" alone matches every name. */
  lemma PercentTermMatchesAll(name: string)
    ensures ILike(name, ContainsPattern("%")) == Some(true)
  {
    var q := [AnyRun, AnyRun];
    assert ContainsPattern("%") == "%%%";
    var none: seq<Token> := [];
    assert Tokenize([]) == Some(none) && [AnyRun] + none == [AnyRun];
    TokenizeStep('%', []);
    assert "%" == ['%'] + [];
    assert Tokenize("%") == Some([AnyRun]);
    TokenizeStep('%', "%");
    assert "%%" == ['%'] + "%";
    assert [AnyRun] + [AnyRun] == q;
    assert Tokenize("%%") == Some(q);
    TokenizeStep('%', "%%");
    assert "%%%" == ['%'] + "%%";
    assert Tokenize("%%%") == Some([AnyRun] + q);
    RunThen(q, name);
    assert q[1..] == [AnyRun];
    assert name[0..] == name;
  }

  /** An `_` inside the term is a wildcard: the term "_" matches every non-empty name and not the empty one. */
  lemma UnderscoreTermMatchesNonEmpty(name: string)
    ensures ILike(name, ContainsPattern("_")) == Some(name != "")
  {
    var q := [AnyOne, AnyRun];
    assert ContainsPattern("_") == "%_%";
    var none: seq<Token> := [];
    assert Tokenize([]) == Some(none) && [AnyRun] + none == [AnyRun];
    TokenizeStep('%', []);
    assert "%" == ['%'] + [];
    assert Tokenize("%") == Some([AnyRun]);
    TokenizeStep('_', "%");
    assert "_%" == ['_'] + "%";
    assert [AnyOne] + [AnyRun] == q;
    assert Tokenize("_%") == Some(q);
    TokenizeStep('%', "_%");
    assert "%_%" == ['%'] + "_%";
    assert Tokenize("%_%") == Some([AnyRun] + q);
    RunThen(q, name);
    assert q[1..] == [AnyRun];
    if name != [] {
      assert name[0..] == name;
    }
  }

  /** A search for "Hop" finds "The Musical Hop". */
  lemma HopFindsTheMusicalHop()
    ensures ILike("The Musical Hop", ContainsPattern("Hop")) == Some(true)
  {
    assert PlainTerm("Hop");
    FoundAt("Hop", "The Musical Hop", 12);
  }

  /** A search for "Music" finds "The Musical Hop". */
  lemma MusicFindsTheMusicalHop()
    ensures ILike("The Musical Hop", ContainsPattern("Music")) == Some(true)
  {
    assert PlainTerm("Music");
    FoundAt("Music", "The Musical Hop", 4);
  }

  /** A search for "Music" also finds "Park Square Live Music & Coffee". */
  lemma MusicFindsParkSquare()
    ensures ILike("Park Square Live Music & Coffee", ContainsPattern("Music")) == Some(true)
  {
    assert PlainTerm("Music");
    FoundAt("Music", "Park Square Live Music & Coffee", 17);
  }

  /** A search for "band" finds "The Wild Sax Band" and not "Guns N Petals". */
  lemma BandFindsTheWildSaxBand()
    ensures ILike("The Wild Sax Band", ContainsPattern("band")) == Some(true)
    ensures ILike("Guns N Petals", ContainsPattern("band")) == Some(false)
  {
    assert PlainTerm("band");
    FoundAt("band", "The Wild Sax Band", 13);
    PlainTermMatchesSubstring("Guns N Petals", "band");
    forall c | c in "Guns N Petals" ensures Lower(c) != Lower('b') {
      assert c != 'b' && c != 'B';
    }
    FirstLetterAbsent("band", "Guns N Petals");
  }

  /** A search for "A" finds "Guns N Petals", "Matt Quevado" and "The Wild Sax Band". */
  lemma AFindsThreeArtists()
    ensures ILike("Guns N Petals", ContainsPattern("A")) == Some(true)
    ensures ILike("Matt Quevado", ContainsPattern("A")) == Some(true)
    ensures ILike("The Wild Sax Band", ContainsPattern("A")) == Some(true)
  {
    assert PlainTerm("A");
    FoundAt("A", "Guns N Petals", 10);
    FoundAt("A", "Matt Quevado", 1);
    FoundAt("A", "The Wild Sax Band", 10);
  }
}

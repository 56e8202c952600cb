/** The terms of a document query and the LIKE pattern that stands in for full-text search. */
module DocumentSearch {
  import opened Wrappers
  import opened Sorting
  import opened Text

  // ------------------------------------------------------- terms

  function RunLength(query: string, word: char -> bool): (n: nat)
    ensures n <= |query|
  {
    if query != [] && word(query[0]) then 1 + RunLength(query[1..], word) else 0
  }

  /** `re.findall(r"[\w-]+", query)`: the longest runs of word characters, in order. */
  function Terms(query: string, word: char -> bool): seq<string> {
    if query == [] then []
    else if word(query[0]) then
      [query[..RunLength(query, word)]] + Terms(query[RunLength(query, word)..], word)
    else Terms(query[1..], word)
  }

  predicate Plain(term: string) { term != [] && '%' !in term && '_' !in term }

  lemma {:induction false} RunIsWords(query: string, word: char -> bool)
    ensures forall c | c in query[..RunLength(query, word)] :: word(c)
  {
    if query != [] && word(query[0]) {
      RunIsWords(query[1..], word);
      var n := RunLength(query[1..], word);
      assert query[..n + 1] == [query[0]] + query[1..][..n];
    }
  }

  /** A term is a word: it has a character, and no per cent sign. */
  lemma {:induction false} TermsAreWords(query: string, word: char -> bool, term: string)
    requires !word('%') && term in Terms(query, word)
    ensures term != [] && forall c | c in term :: word(c)
    ensures '%' !in term
    decreases |query|
  {
    if word(query[0]) {
      RunIsWords(query, word);
      if term != query[..RunLength(query, word)] {
        TermsAreWords(query[RunLength(query, word)..], word, term);
      }
    } else {
      TermsAreWords(query[1..], word, term);
    }
  }

  ghost predicate NoWord(s: string, word: char -> bool) { forall c | c in s :: !word(c) }

  ghost predicate AllWord(s: string, word: char -> bool) { forall c | c in s :: word(c) }

  /** Gaps and terms in turn, beginning and ending with a gap. */
  function Woven(gaps: seq<string>, terms: seq<string>): string
    requires |gaps| == |terms| + 1
  {
    if terms == [] then gaps[0] else gaps[0] + (terms[0] + Woven(gaps[1..], terms[1..]))
  }

  /**
   The terms are all the longest runs of word characters, in order: the query is gaps and terms in turn, with no word
   character in a gap, at least one character in every term, and in every gap between two terms.
   */
  ghost predicate Runs(query: string, terms: seq<string>, gaps: seq<string>, word: char -> bool) {
    && |gaps| == |terms| + 1 && query == Woven(gaps, terms)
    && (forall g | g in gaps :: NoWord(g, word))
    && (forall t | t in terms :: t != [] && AllWord(t, word))
    && (forall k | 0 < k < |gaps| - 1 :: gaps[k] != [])
  }

  lemma {:induction false} RunEnds(query: string, word: char -> bool)
    ensures RunLength(query, word) < |query| ==> !word(query[RunLength(query, word)])
  {
    if query != [] && word(query[0]) { RunEnds(query[1..], word); }
  }

  lemma PrependTerm(t: string, rest: string, terms: seq<string>, gaps: seq<string>, word: char -> bool)
    requires Runs(rest, terms, gaps, word) && t != [] && AllWord(t, word)
    requires rest != [] ==> !word(rest[0])
    requires rest == [] ==> terms == []
    ensures Runs(t + rest, [t] + terms, [[]] + gaps, word)
  {
    assert ([t] + terms)[1..] == terms && ([[]] + gaps)[1..] == gaps;
    assert terms != [] ==> terms[0] in terms && gaps[0] != [];
  }

  lemma PrependGap(c: char, rest: string, terms: seq<string>, gaps: seq<string>, word: char -> bool)
    requires Runs(rest, terms, gaps, word) && !word(c)
    ensures Runs([c] + rest, terms, [[c] + gaps[0]] + gaps[1..], word)
  {
    var more := [[c] + gaps[0]] + gaps[1..];
    assert more[1..] == gaps[1..];
    assert gaps[0] in gaps && forall g | g in gaps[1..] :: g in gaps;
    if terms == [] {
      assert [c] + gaps[0] == [c] + rest;
    } else {
      AppendAssociates([c], gaps[0], terms[0] + Woven(gaps[1..], terms[1..]));
    }
  }

  lemma {:induction false} TermsAreRuns(query: string, word: char -> bool) returns (gaps: seq<string>)
    ensures Runs(query, Terms(query, word), gaps, word)
    decreases |query|
  {
    if query == [] {
      gaps := [[]];
    } else if word(query[0]) {
      var n := RunLength(query, word);
      RunIsWords(query, word);
      RunEnds(query, word);
      var more := TermsAreRuns(query[n..], word);
      PrependTerm(query[..n], query[n..], Terms(query[n..], word), more, word);
      assert query[..n] + query[n..] == query;
      gaps := [[]] + more;
    } else {
      var more := TermsAreRuns(query[1..], word);
      PrependGap(query[0], query[1..], Terms(query[1..], word), more, word);
      assert [query[0]] + query[1..] == query;
      gaps := [[query[0]] + more[0]] + more[1..];
    }
  }

  // ------------------------------------------------------- the pattern

  /** `"%".join(terms)`. */
  function Joined(terms: seq<string>): string {
    if terms == [] then [] else if |terms| == 1 then terms[0] else terms[0] + "%" + Joined(terms[1..])
  }

  function LikeQuery(terms: seq<string>): string { "%" + Joined(terms) + "%" }

  /** `lower(text) LIKE lower(pattern)`, without an ESCAPE character. */
  predicate LowerLike(text: string, pattern: string) { Like(FoldAll(pattern), FoldAll(text), None) }

  /** The terms occur one after another, without overlap, letter case aside. */
  ghost predicate InOrder(terms: seq<string>, text: string)
    decreases |terms|, 1
  {
    terms == [] || exists i: nat :: FirstAt(terms, text, i)
  }

  ghost predicate FirstAt(terms: seq<string>, text: string, i: nat)
    requires terms != []
    decreases |terms|, 0
  {
    OccursAt(terms[0], text, i) && InOrder(terms[1..], text[i + |terms[0]|..])
  }

  /** Each term preceded by a per cent sign, and one at the end. */
  function Spread(terms: seq<string>): string {
    if terms == [] then "%" else "%" + (terms[0] + Spread(terms[1..]))
  }

  lemma {:induction false} LikeQueryIsSpread(terms: seq<string>)
    requires terms != []
    ensures LikeQuery(terms) == Spread(terms)
  {
    if |terms| == 1 {
      AppendAssociates("%", terms[0], "%");
    } else {
      LikeQueryIsSpread(terms[1..]);
      var rest := Joined(terms[1..]);
      AppendAssociates(terms[0], "%", rest);
      AppendAssociates("%", terms[0] + ("%" + rest), "%");
      AppendAssociates(terms[0], "%" + rest, "%");
    }
  }

  lemma {:induction false} FoldAllLength(s: string)
    ensures |FoldAll(s)| == |s|
    ensures forall i | 0 <= i < |s| :: FoldAll(s)[i] == Fold(s[i])
  {
    if s != [] { FoldAllLength(s[1..]); }
  }

  /** Lowering both sides changes nothing: LIKE ignores the case of ASCII letters already. */
  lemma {:induction false} LowerIsRedundant(pattern: string, text: string)
    ensures LowerLike(text, pattern) <==> Like(pattern, text, None)
    decreases |pattern| + |text|
  {
    FoldAllLength(pattern);
    FoldAllLength(text);
    if pattern != [] {
      LowerIsRedundant(pattern[1..], text);
      if text != [] {
        LowerIsRedundant(pattern, text[1..]);
        LowerIsRedundant(pattern[1..], text[1..]);
      }
    }
  }

  /** A plain term at the head of a pattern matches itself and nothing else. */
  lemma {:induction false} LikePlain(term: string, rest: string, text: string)
    requires '%' !in term && '_' !in term
    ensures Like(term + rest, text, None)
            <==> |text| >= |term| && FoldAll(text[..|term|]) == FoldAll(term) && Like(rest, text[|term|..], None)
  {
    if term == [] {
      assert term + rest == rest && text[0..] == text && text[..0] == [];
    } else {
      var pattern, after := term + rest, term[1..] + rest;
      assert pattern[0] == term[0] && pattern[1..] == after;
      assert term[0] in term;
      if text != [] {
        LikePlain(term[1..], rest, text[1..]);
        if |text| >= |term| {
          assert text[1..][|term| - 1..] == text[|term|..];
          assert text[..|term|][1..] == text[1..][..|term| - 1];
          SameHeadSameTail(Fold(text[0]), FoldAll(text[1..][..|term| - 1]), Fold(term[0]), FoldAll(term[1..]));
        }
      }
    }
  }

  lemma {:induction false} SpreadMatchesInOrder(terms: seq<string>, text: string)
    requires forall t | t in terms :: Plain(t)
    ensures Like(Spread(terms), text, None) <==> InOrder(terms, text)
    decreases |terms|
  {
    if terms == [] {
      LikePercentOnly(text, None);
    } else {
      var t, rest := terms[0], Spread(terms[1..]);
      assert t in terms && Plain(t);
      assert forall u | u in terms[1..] :: u in terms;
      LikePercent(t + rest, text, None);
      forall i: nat | i <= |text|
        ensures Like(t + rest, text[i..], None) <==> FirstAt(terms, text, i)
      {
        LikePlain(t, rest, text[i..]);
        if i + |t| <= |text| {
          assert text[i..][..|t|] == text[i..i + |t|];
          assert text[i..][|t|..] == text[i + |t|..];
          SpreadMatchesInOrder(terms[1..], text[i + |t|..]);
        }
      }
    }
  }

  /**
   For terms without an underscore, the fallback finds exactly the texts in which the terms occur in the
   order of the query, one after another.
   */
  lemma FallbackMatchesInOrder(terms: seq<string>, text: string)
    requires terms != [] && forall t | t in terms :: Plain(t)
    ensures LowerLike(text, LikeQuery(terms)) <==> InOrder(terms, text)
  {
    LowerIsRedundant(LikeQuery(terms), text);
    LikeQueryIsSpread(terms);
    SpreadMatchesInOrder(terms, text);
  }

  // ------------------------------------------------------- underscores

  function Concat(terms: seq<string>): string {
    if terms == [] then [] else terms[0] + Concat(terms[1..])
  }

  /** Hyphens for underscores: a text that the fallback takes for the terms. */
  function Hyphenated(terms: seq<string>): string {
    if terms == [] then [] else Replace(terms[0], '_', "-") + Hyphenated(terms[1..])
  }

  lemma {:induction false} LikeHyphenated(term: string, rest: string, text: string)
    requires '%' !in term && Like(rest, text, None)
    ensures Like(term + rest, Replace(term, '_', "-") + text, None)
    ensures |Replace(term, '_', "-")| == |term|
  {
    if term == [] {
      assert term + rest == rest && Replace(term, '_', "-") + text == text;
    } else {
      LikeHyphenated(term[1..], rest, text);
      assert term[0] in term;
      assert (term + rest)[1..] == term[1..] + rest;
      assert (Replace(term, '_', "-") + text)[1..] == Replace(term[1..], '_', "-") + text;
    }
  }

  lemma {:induction false} HyphenatedMatches(terms: seq<string>)
    requires forall t | t in terms :: '%' !in t
    ensures Like(Spread(terms), Hyphenated(terms), None)
    ensures |Hyphenated(terms)| == |Concat(terms)|
  {
    if terms == [] {
      LikePercentOnly([], None);
    } else {
      assert terms[0] in terms;
      HyphenatedMatches(terms[1..]);
      LikeHyphenated(terms[0], Spread(terms[1..]), Hyphenated(terms[1..]));
      assert Spread(terms)[1..] == terms[0] + Spread(terms[1..]);
    }
  }

  /** Terms that occur in order fill a text of their total length. */
  lemma {:induction false} InOrderFills(terms: seq<string>, text: string)
    requires InOrder(terms, text)
    ensures |text| >= |Concat(terms)|
    ensures |text| == |Concat(terms)| ==> FoldAll(text) == FoldAll(Concat(terms))
    decreases |terms|
  {
    if terms != [] {
      var i: nat :| FirstAt(terms, text, i);
      var n := i + |terms[0]|;
      InOrderFills(terms[1..], text[n..]);
      FoldAllLength(text);
      FoldAllLength(text[i..n]);
      FoldAllLength(text[n..]);
      FoldAllLength(terms[0]);
      FoldAllLength(Concat(terms[1..]));
      FoldAllLength(Concat(terms));
    }
  }

  lemma {:induction false} HyphenatedDiffers(terms: seq<string>)
    requires FoldAll(Hyphenated(terms)) == FoldAll(Concat(terms))
    ensures forall t | t in terms :: '_' !in t
  {
    if terms != [] {
      var head := Replace(terms[0], '_', "-");
      ReplaceLength(terms[0]);
      FoldAllLength(Hyphenated(terms));
      FoldAllLength(Concat(terms));
      FoldAllLength(Hyphenated(terms[1..]));
      FoldAllLength(Concat(terms[1..]));
      HyphenatedSplit(head, Hyphenated(terms[1..]), terms[0], Concat(terms[1..]));
      HyphenatedDiffers(terms[1..]);
      assert terms == [terms[0]] + terms[1..];
    }
  }

  lemma HyphenatedSplit(a: string, b: string, c: string, d: string)
    requires |a| == |c| && FoldAll(a + b) == FoldAll(c + d)
    ensures FoldAll(b) == FoldAll(d)
    ensures forall i | 0 <= i < |a| :: Fold(a[i]) == Fold(c[i])
  {
    FoldAllLength(a + b);
    FoldAllLength(c + d);
    FoldAllLength(b);
    FoldAllLength(d);
    forall i | 0 <= i < |a| ensures Fold(a[i]) == Fold(c[i]) {
      assert FoldAll(a + b)[i] == FoldAll(c + d)[i];
    }
    forall i | 0 <= i < |b| ensures FoldAll(b)[i] == FoldAll(d)[i] {
      assert FoldAll(a + b)[|a| + i] == FoldAll(c + d)[|a| + i];
    }
  }

  lemma {:induction false} ReplaceLength(s: string)
    ensures |Replace(s, '_', "-")| == |s|
    ensures forall i | 0 <= i < |s| && s[i] == '_' :: Replace(s, '_', "-")[i] == '-'
  {
    if s != [] { ReplaceLength(s[1..]); }
  }

  /**
   An underscore is a word character, and the fallback does not escape it: the pattern means the terms in
   order, for every text, exactly when no term has an underscore.
   */
  lemma FallbackExactIff(terms: seq<string>)
    requires terms != [] && forall t | t in terms :: t != [] && '%' !in t
    ensures (forall text :: LowerLike(text, LikeQuery(terms)) <==> InOrder(terms, text))
            <==> (forall t | t in terms :: '_' !in t)
  {
    if forall t | t in terms :: '_' !in t {
      forall text ensures LowerLike(text, LikeQuery(terms)) <==> InOrder(terms, text) {
        FallbackMatchesInOrder(terms, text);
      }
    } else {
      var text := Hyphenated(terms);
      LowerIsRedundant(LikeQuery(terms), text);
      LikeQueryIsSpread(terms);
      HyphenatedMatches(terms);
      assert LowerLike(text, LikeQuery(terms));
      if InOrder(terms, text) {
        InOrderFills(terms, text);
        HyphenatedDiffers(terms);
        assert false;
      }
    }
  }

  /** The empty text is found by no query. */
  lemma EmptyTextIsNotFound(query: string, word: char -> bool)
    requires !word('%') && Terms(query, word) != []
    ensures !LowerLike("", LikeQuery(Terms(query, word)))
  {
    var terms := Terms(query, word);
    var pattern := LikeQuery(terms);
    assert FoldAll("") == "";
    TermsAreWords(query, word, terms[0]);
    var c := terms[0][0];
    assert c in terms[0];
    LikeQueryIsSpread(terms);
    assert pattern[1] == c;
    FoldAllLength(pattern);
    assert FoldAll(pattern)[1] == Fold(c) != '%' && FoldAll(pattern)[1] in FoldAll(pattern);
    if Like(FoldAll(pattern), "", None) {
      LikeEmptyText(FoldAll(pattern), None);
      assert false;
    }
  }
}

/** Text operations of Python and SQLite that several components rely on. */
module Text {
  import opened Wrappers

  // ------------------------------------------------------- str.strip and str.replace

  /** ASCII white space, as `str.strip` removes it. */
  predicate IsSpace(c: char) {
    var code := c as int;
    code == 32 || 9 <= code <= 13 || 28 <= code <= 31
  }

  function StripLeft(s: string): string {
    if s != [] && IsSpace(s[0]) then StripLeft(s[1..]) else s
  }

  function StripRight(s: string): string {
    if s != [] && IsSpace(s[|s| - 1]) then StripRight(s[..|s| - 1]) else s
  }

  function Strip(s: string): string { StripRight(StripLeft(s)) }

  predicate Blank(s: string) { Strip(s) == [] }

  lemma {:induction false} StripLeftStarts(s: string)
    ensures StripLeft(s) != [] ==> !IsSpace(StripLeft(s)[0])
  {
    if s != [] && IsSpace(s[0]) { StripLeftStarts(s[1..]); }
  }

  lemma {:induction false} StripRightEnds(s: string)
    ensures StripRight(s) <= s && (StripRight(s) != [] ==> !IsSpace(StripRight(s)[|StripRight(s)| - 1]))
  {
    if s != [] && IsSpace(s[|s| - 1]) { StripRightEnds(s[..|s| - 1]); }
  }

  lemma StripIsIdempotent(s: string)
    ensures Strip(Strip(s)) == Strip(s)
  {
    StripLeftStarts(s);
    StripRightEnds(StripLeft(s));
  }

  ghost predicate AllSpace(s: string) {
    forall c | c in s :: c as int in {9, 10, 11, 12, 13, 28, 29, 30, 31, 32}
  }

  lemma SpaceIff(c: char)
    ensures IsSpace(c) <==> c as int in {9, 10, 11, 12, 13, 28, 29, 30, 31, 32}
  {
  }

  /** Stripping takes white space off both ends, all of it and nothing else. */
  lemma StripMeans(s: string) returns (left: string, right: string)
    ensures s == left + Strip(s) + right && AllSpace(left) && AllSpace(right)
    ensures Strip(s) != [] ==> !IsSpace(Strip(s)[0]) && !IsSpace(Strip(s)[|Strip(s)| - 1])
  {
    left := LeftSpaces(s);
    right := RightSpaces(StripLeft(s));
    StripLeftStarts(s);
    StripRightEnds(StripLeft(s));
  }

  lemma {:induction false} LeftSpaces(s: string) returns (left: string)
    ensures s == left + StripLeft(s) && AllSpace(left)
  {
    left := [];
    if s != [] && IsSpace(s[0]) {
      SpaceIff(s[0]);
      var rest := LeftSpaces(s[1..]);
      left := [s[0]] + rest;
      assert s == [s[0]] + s[1..];
    }
  }

  lemma {:induction false} RightSpaces(s: string) returns (right: string)
    ensures s == StripRight(s) + right && AllSpace(right)
  {
    right := [];
    if s != [] && IsSpace(s[|s| - 1]) {
      SpaceIff(s[|s| - 1]);
      var rest := RightSpaces(s[..|s| - 1]);
      right := rest + [s[|s| - 1]];
      assert s == s[..|s| - 1] + [s[|s| - 1]];
    }
  }

  /** A text is blank exactly when it holds nothing but white space. */
  lemma {:induction false} BlankIff(s: string)
    ensures Blank(s) <==> AllSpace(s)
  {
    var left, right := StripMeans(s);
    if !Blank(s) {
      SpaceIff(Strip(s)[0]);
      assert s[|left|] == Strip(s)[0] && s[|left|] in s;
    }
  }

  /** `s.replace(c, r)` for a one-character pattern. */
  function Replace(s: string, c: char, r: string): string {
    if s == [] then [] else (if s[0] == c then r else [s[0]]) + Replace(s[1..], c, r)
  }

  lemma {:induction false} ReplaceAppend(a: string, b: string, c: char, r: string)
    ensures Replace(a + b, c, r) == Replace(a, c, r) + Replace(b, c, r)
  {
    if a == [] {
      assert a + b == b;
    } else {
      assert (a + b)[1..] == a[1..] + b;
      ReplaceAppend(a[1..], b, c, r);
    }
  }

  // ------------------------------------------------------- SQLite's LIKE

  /** LIKE compares ASCII letters without regard to case. */
  function Fold(c: char): char {
    if 'A' <= c <= 'Z' then ((c as int) + 32) as char else c
  }

  /** Two characters fold to one exactly when they are equal or one ASCII letter in its two cases. */
  lemma FoldIff(a: char, b: char)
    ensures Fold(a) == Fold(b)
            <==> || a == b
                 || ('A' <= a <= 'Z' && b as int == a as int + 32)
                 || ('A' <= b <= 'Z' && a as int == b as int + 32)
  {
  }

  function FoldAll(s: string): string {
    if s == [] then [] else [Fold(s[0])] + FoldAll(s[1..])
  }

  /** `text LIKE pattern`, with an optional ESCAPE character. */
  predicate Like(pattern: string, text: string, escape: Option<char>)
    decreases |pattern| + |text|
  {
    if pattern == [] then text == []
    else if pattern[0] == '%' then
      Like(pattern[1..], text, escape) || (text != [] && Like(pattern, text[1..], escape))
    else if escape == Some(pattern[0]) then
      |pattern| >= 2 && text != [] && Fold(pattern[1]) == Fold(text[0]) && Like(pattern[2..], text[1..], escape)
    else if pattern[0] == '_' then text != [] && Like(pattern[1..], text[1..], escape)
    else text != [] && Fold(pattern[0]) == Fold(text[0]) && Like(pattern[1..], text[1..], escape)
  }

  /** A leading % skips any number of characters. */
  lemma {:induction false} LikePercent(rest: string, text: string, escape: Option<char>)
    ensures Like("%" + rest, text, escape) <==> exists i :: 0 <= i <= |text| && Like(rest, text[i..], escape)
  {
    assert ("%" + rest)[1..] == rest;
    if text == [] {
      assert text[0..] == text;
    } else {
      LikePercent(rest, text[1..], escape);
      assert text[0..] == text;
      if i :| 0 <= i <= |text[1..]| && Like(rest, text[1..][i..], escape) {
        assert text[1..][i..] == text[i + 1..];
      }
      if i :| 0 < i <= |text| && Like(rest, text[i..], escape) {
        assert text[1..][i - 1..] == text[i..];
      }
    }
  }

  lemma {:induction false} LikePercentOnly(text: string, escape: Option<char>)
    ensures Like("%", text, escape)
  {
    assert "%"[1..] == [];
    if text != [] { LikePercentOnly(text[1..], escape); }
  }

  /** A pattern that demands a character does not match the empty text. */
  lemma {:induction false} LikeEmptyText(pattern: string, escape: Option<char>)
    requires Like(pattern, [], escape)
    ensures forall c | c in pattern :: c == '%'
  {
    if pattern != [] {
      LikeEmptyText(pattern[1..], escape);
      assert pattern == [pattern[0]] + pattern[1..];
    }
  }

  // ------------------------------------------------------- substrings

  /** `query` occurs in `text`, up to the case of ASCII letters. */
  ghost predicate OccursAt(query: string, text: string, i: int) {
    0 <= i <= |text| - |query| && FoldAll(text[i..i + |query|]) == FoldAll(query)
  }

  ghost predicate Contains(text: string, query: string) {
    exists i :: OccursAt(query, text, i)
  }

  lemma SameHeadSameTail(a: char, s: string, b: char, t: string)
    ensures [a] + s == [b] + t <==> a == b && s == t
  {
    if [a] + s == [b] + t {
      assert ([a] + s)[0] == a && ([b] + t)[0] == b;
      assert ([a] + s)[1..] == s && ([b] + t)[1..] == t;
    }
  }
}

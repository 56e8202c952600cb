/** Memory search: the query is escaped into a LIKE pattern, so that it finds exactly the texts that contain it. */
module MemorySearch {
  import opened Wrappers
  import opened Sorting
  import opened Text

  const ESCAPE := Some('\\')

  /** The three replacements, in the order of the code. */
  function Escaped(query: string): string {
    Replace(Replace(Replace(query, '\\', "\\\\"), '%', "\\%"), '_', "\\_")
  }

  function Pattern(query: string): string { "%" + Escaped(query) + "%" }

  /** Each special character once, with a backslash before it. */
  function EscapeOnePass(query: string): string {
    if query == [] then []
    else (if query[0] in {'\\', '%', '_'} then ['\\', query[0]] else [query[0]]) + EscapeOnePass(query[1..])
  }

  /** The chain of replacements escapes each character once, because the backslash goes first. */
  lemma {:induction false} ChainIsOnePass(query: string)
    ensures Escaped(query) == EscapeOnePass(query)
  {
    if query != [] {
      var c, rest := [query[0]], query[1..];
      ChainIsOnePass(rest);
      var c1, rest1 := Replace(c, '\\', "\\\\"), Replace(rest, '\\', "\\\\");
      var c2, rest2 := Replace(c1, '%', "\\%"), Replace(rest1, '%', "\\%");
      assert query == c + rest;
      ReplaceAppend(c, rest, '\\', "\\\\");
      ReplaceAppend(c1, rest1, '%', "\\%");
      ReplaceAppend(c2, rest2, '_', "\\_");
      OneCharacter(query[0]);
    }
  }

  lemma ReplaceTwo(a: char, b: char, c: char, r: string)
    ensures Replace([a], c, r) == if a == c then r else [a]
    ensures Replace([a, b], c, r) == (if a == c then r else [a]) + if b == c then r else [b]
  {
    assert [a][1..] == [] && [a, b][1..] == [b] && [b][1..] == [];
    assert r + [] == r;
    ReplaceAppend([a], [b], c, r);
    assert [a] + [b] == [a, b];
  }

  lemma OneCharacter(c: char)
    ensures Escaped([c]) == if c in {'\\', '%', '_'} then ['\\', c] else [c]
  {
    ReplaceTwo(c, c, '\\', "\\\\");
    ReplaceTwo(c, c, '%', "\\%");
    ReplaceTwo(c, c, '_', "\\_");
    ReplaceTwo('\\', c, '%', "\\%");
    ReplaceTwo('\\', c, '_', "\\_");
    assert "\\\\" == ['\\', '\\'] && "\\%" == ['\\', '%'] && "\\_" == ['\\', '_'];
  }

  /** Doubling the backslash last would undo the other two escapes. */
  lemma {:induction false} BackslashLastIsWrong()
    ensures Replace(Replace("%", '%', "\\%"), '\\', "\\\\") == "\\\\%" != EscapeOnePass("%")
  {
    ReplaceTwo('%', '%', '%', "\\%");
    ReplaceTwo('\\', '%', '\\', "\\\\");
    assert "\\%" == ['\\', '%'];
  }

  /** An escaped query at the head of a pattern matches itself, letter case aside, and nothing else. */
  lemma {:induction false} LikeEscaped(query: string, rest: string, text: string)
    ensures Like(EscapeOnePass(query) + rest, text, ESCAPE)
            <==> |text| >= |query| && FoldAll(text[..|query|]) == FoldAll(query) && Like(rest, text[|query|..], ESCAPE)
  {
    if query == [] {
      assert EscapeOnePass(query) + rest == rest && text[0..] == text && text[..0] == [];
    } else {
      var c := query[0];
      var head := if c in {'\\', '%', '_'} then ['\\', c] else [c];
      var pattern, after := EscapeOnePass(query) + rest, EscapeOnePass(query[1..]) + rest;
      AppendAssociates(head, EscapeOnePass(query[1..]), rest);
      assert pattern == head + after;
      if c in {'\\', '%', '_'} {
        assert pattern[0] == '\\' && pattern[1] == c && pattern[2..] == after;
      } else {
        assert pattern[0] == c && pattern[1..] == after;
      }
      if text != [] {
        LikeEscaped(query[1..], rest, text[1..]);
        if |text| >= |query| {
          assert text[1..][|query| - 1..] == text[|query|..];
          assert text[..|query|][1..] == text[1..][..|query| - 1];
          SameHeadSameTail(Fold(text[0]), FoldAll(text[1..][..|query| - 1]), Fold(c), FoldAll(query[1..]));
        }
      }
    }
  }

  /** For every query and every text, the pattern matches exactly when the query occurs in the text. */
  lemma PatternMatchesSubstrings(query: string, text: string)
    ensures Like(Pattern(query), text, ESCAPE) <==> Contains(text, query)
  {
    ChainIsOnePass(query);
    var rest := EscapeOnePass(query) + "%";
    assert Pattern(query) == "%" + rest by { AppendAssociates("%", EscapeOnePass(query), "%"); }
    LikePercent(rest, text, ESCAPE);
    forall i | 0 <= i <= |text| ensures Like(rest, text[i..], ESCAPE) <==> OccursAt(query, text, i) {
      LikeEscaped(query, "%", text[i..]);
      if |text[i..]| >= |query| {
        LikePercentOnly(text[i..][|query|..], ESCAPE);
        assert text[i..][..|query|] == text[i..i + |query|];
      }
    }
    if Contains(text, query) {
      var i :| OccursAt(query, text, i);
      assert Like(rest, text[i..], ESCAPE);
    }
  }

  // ------------------------------------------------------- the search

  datatype Memory = Memory(
    id: string, user: int, active: bool, importance: int, updated: int,
    content: string, category: string, source: string)

  datatype MemoryError = EmptyQuery | QueryTooLong

  /** ORDER BY importance DESC, updated_at DESC, id. */
  predicate MemoryLe(a: Memory, b: Memory) {
    if a.importance != b.importance then a.importance > b.importance
    else if a.updated != b.updated then a.updated > b.updated
    else LexLe(a.id, b.id)
  }

  /** The WHERE clause. */
  predicate Selected(m: Memory, user: int, pattern: string) {
    m.user == user && m.active
    && (Like(pattern, m.content, ESCAPE) || Like(pattern, m.category, ESCAPE) || Like(pattern, m.source, ESCAPE))
  }

  function Filter(rows: seq<Memory>, user: int, pattern: string): seq<Memory> {
    if rows == [] then []
    else (if Selected(rows[0], user, pattern) then [rows[0]] else []) + Filter(rows[1..], user, pattern)
  }

  function Limited(rows: seq<Memory>, limit: int): seq<Memory> {
    var bound := if limit < 1 then 1 else limit;
    if |rows| <= bound then rows else rows[..bound]
  }

  function SearchMemories(rows: seq<Memory>, user: int, query: string, limit: int, maxLength: int)
    : Result<seq<Memory>, MemoryError>
  {
    var normalized := Strip(query);
    if normalized == [] then Failure(EmptyQuery)
    else if |normalized| > maxLength then Failure(QueryTooLong)
    else Success(Limited(Sort(MemoryLe, Filter(rows, user, Pattern(normalized))), limit))
  }

  /** The memories the user means: active, their own, and holding the text in one of the three fields. */
  ghost predicate Wanted(m: Memory, user: int, text: string) {
    m.user == user && m.active && (Contains(m.content, text) || Contains(m.category, text) || Contains(m.source, text))
  }

  lemma {:induction false} FilterIsWanted(rows: seq<Memory>, user: int, text: string, m: Memory)
    ensures multiset(Filter(rows, user, Pattern(text)))[m] == if Wanted(m, user, text) then multiset(rows)[m] else 0
  {
    PatternMatchesSubstrings(text, m.content);
    PatternMatchesSubstrings(text, m.category);
    PatternMatchesSubstrings(text, m.source);
    if rows != [] {
      assert rows == [rows[0]] + rows[1..];
      FilterIsWanted(rows[1..], user, text, m);
    }
  }

  lemma MemoryLeTotal()
    ensures TotalPreorder(MemoryLe)
  {
    forall a, b ensures MemoryLe(a, b) || MemoryLe(b, a) { LexLeTotal(a.id, b.id); }
    forall a, b, c | MemoryLe(a, b) && MemoryLe(b, c) ensures MemoryLe(a, c) {
      if LexLe(a.id, b.id) && LexLe(b.id, c.id) { LexLeTransitive(a.id, b.id, c.id); }
    }
  }

  /** As many of the first rows as there are, up to the limit, or to one if that is lower. */
  ghost predicate IsPrefixOf(some: seq<Memory>, all: seq<Memory>, limit: int) {
    some <= all && (|some| == |all| || (|some| == limit && limit >= 1) || (|some| == 1 && limit < 1))
    && (limit >= 1 ==> |some| <= limit) && (limit < 1 ==> |some| <= 1)
  }

  lemma LimitedIsPrefix(rows: seq<Memory>, limit: int)
    ensures IsPrefixOf(Limited(rows, limit), rows, limit)
  {
  }

  lemma PrecedesIff(a: Memory, b: Memory)
    ensures MemoryLe(a, b) <==> Precedes(a, b)
  {
  }

  /** By importance, highest first, then by time of update, latest first, then by id. */
  ghost predicate Precedes(a: Memory, b: Memory) {
    || a.importance > b.importance
    || (a.importance == b.importance && a.updated > b.updated)
    || (a.importance == b.importance && a.updated == b.updated && LexLe(a.id, b.id))
  }

  /** A query of white space is refused, and one that is longer than the bound once it is stripped. */
  lemma SearchRefusesIff(rows: seq<Memory>, user: int, query: string, limit: int, maxLength: int)
    ensures
      var r := SearchMemories(rows, user, query, limit, maxLength);
      && (r == Failure(EmptyQuery) <==> AllSpace(query))
      && (r == Failure(QueryTooLong) <==> !AllSpace(query) && |Strip(query)| > maxLength)
      && (r.Failure? <==> AllSpace(query) || |Strip(query)| > maxLength)
  {
    BlankIff(query);
  }

  /**
   A search returns the first rows, at least one place being allowed, of a list that holds each wanted
   memory as often as the table does and nothing else, in the stated order.
   */
  lemma SearchFindsWanted(rows: seq<Memory>, user: int, query: string, limit: int, maxLength: int)
    returns (found: seq<Memory>)
    requires Strip(query) != [] && |Strip(query)| <= maxLength
    ensures SearchMemories(rows, user, query, limit, maxLength) == Success(Limited(found, limit))
    ensures IsPrefixOf(Limited(found, limit), found, limit)
    ensures forall i, j | 0 <= i < j < |found| :: Precedes(found[i], found[j])
    ensures forall m :: multiset(found)[m] == if Wanted(m, user, Strip(query)) then multiset(rows)[m] else 0
  {
    var selected := Filter(rows, user, Pattern(Strip(query)));
    found := Sort(MemoryLe, selected);
    LimitedIsPrefix(found, limit);
    MemoryLeTotal();
    SortSorted(MemoryLe, selected);
    forall i, j | 0 <= i < j < |found| ensures Precedes(found[i], found[j]) { PrecedesIff(found[i], found[j]); }
    forall m ensures multiset(found)[m] == if Wanted(m, user, Strip(query)) then multiset(rows)[m] else 0 {
      FilterIsWanted(rows, user, Strip(query), m);
    }
  }
}

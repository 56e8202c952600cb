/** Base64 as in section 4 of RFC 4648, over bytes: the text is ASCII. */
module Base64 {
  import opened Wrappers

  const PAD: bv8 := 61

  /** The alphabet: A-Z, a-z, 0-9, +, /. */
  function Symbol(x: bv8): bv8
    requires x < 64
  {
    if x < 26 then x + 65
    else if x < 52 then x + 71
    else if x < 62 then x - 4
    else if x == 62 then 43
    else 47
  }

  predicate IsSymbol(c: bv8) {
    65 <= c <= 90 || 97 <= c <= 122 || 48 <= c <= 57 || c == 43 || c == 47
  }

  function Value(c: bv8): (x: bv8)
    requires IsSymbol(c)
    ensures x < 64
  {
    if 65 <= c <= 90 then c - 65
    else if 97 <= c <= 122 then c - 71
    else if 48 <= c <= 57 then c + 4
    else if c == 43 then 62
    else 63
  }

  lemma SymbolValue(x: bv8)
    requires x < 64
    ensures IsSymbol(Symbol(x)) && Value(Symbol(x)) == x && Symbol(x) != PAD
  {
  }

  function Encode(data: seq<bv8>): seq<bv8> {
    if data == [] then []
    else if |data| == 1 then [Symbol(data[0] >> 2), Symbol((data[0] & 3) << 4), PAD, PAD]
    else
      var first, second := Symbol(data[0] >> 2), Symbol(((data[0] & 3) << 4) | (data[1] >> 4));
      if |data| == 2 then [first, second, Symbol((data[1] & 15) << 2), PAD]
      else
        [first, second, Symbol(((data[1] & 15) << 2) | (data[2] >> 6)), Symbol(data[2] & 63)] + Encode(data[3..])
  }

  function Decode(text: seq<bv8>): Option<seq<bv8>> {
    if text == [] then Some([])
    else if |text| < 4 || !IsSymbol(text[0]) || !IsSymbol(text[1]) then None
    else
      var b0 := (Value(text[0]) << 2) | (Value(text[1]) >> 4);
      if text[2] == PAD then
        if text[3] == PAD && |text| == 4 then Some([b0]) else None
      else if !IsSymbol(text[2]) then None
      else
        var b1 := (Value(text[1]) << 4) | (Value(text[2]) >> 2);
        if text[3] == PAD then
          if |text| == 4 then Some([b0, b1]) else None
        else if !IsSymbol(text[3]) then None
        else
          var rest := Decode(text[4..]);
          if rest.None? then None
          else Some([b0, b1, (Value(text[2]) << 6) | Value(text[3])] + rest.value)
  }

  /** Splitting three bytes into four six-bit groups and joining them again. */
  lemma Regroup(a: bv8, b: bv8, c: bv8)
    ensures Regroupable(a, b, c)
    ensures ((a >> 2) << 2) | ((((a & 3) << 4) | (b >> 4)) >> 4) == a
    ensures ((((a & 3) << 4) | (b >> 4)) << 4) | ((((b & 15) << 2) | (c >> 6)) >> 2) == b
    ensures ((((b & 15) << 2) | (c >> 6)) << 6) | (c & 63) == c
  {
  }

  lemma RegroupShort(a: bv8, b: bv8)
    ensures (a & 3) << 4 < 64 && ((a >> 2) << 2) | (((a & 3) << 4) >> 4) == a
    ensures (b & 15) << 2 < 64 && ((((a & 3) << 4) | (b >> 4)) << 4) | (((b & 15) << 2) >> 2) == b
  {
  }

  lemma DecodeOne(a: bv8)
    ensures Decode(Encode([a])) == Some([a])
  {
    Regroup(a, 0, 0);
    RegroupShort(a, 0);
    SymbolValue(a >> 2);
    SymbolValue((a & 3) << 4);
  }

  lemma DecodePadded(x: bv8, y: bv8, z: bv8, a: bv8, b: bv8)
    requires x < 64 && y < 64 && z < 64 && (x << 2) | (y >> 4) == a && (y << 4) | (z >> 2) == b
    ensures Decode([Symbol(x), Symbol(y), Symbol(z), PAD]) == Some([a, b])
  {
    SymbolValue(x);
    SymbolValue(y);
    SymbolValue(z);
  }

  lemma EncodeTwo(a: bv8, b: bv8)
    ensures Regrouped(a, b)
    ensures Encode([a, b]) == [Symbol(a >> 2), Symbol(((a & 3) << 4) | (b >> 4)), Symbol((b & 15) << 2), PAD]
  {
    RegroupShort(a, b);
    Regroup(a, b, 0);
  }

  predicate Regrouped(a: bv8, b: bv8) {
    a >> 2 < 64 && ((a & 3) << 4) | (b >> 4) < 64 && (b & 15) << 2 < 64
  }

  lemma DecodeTwo(a: bv8, b: bv8)
    ensures Decode(Encode([a, b])) == Some([a, b])
  {
    Regroup(a, b, 0);
    RegroupShort(a, b);
    EncodeTwo(a, b);
    DecodePadded(a >> 2, ((a & 3) << 4) | (b >> 4), (b & 15) << 2, a, b);
  }

  lemma DecodeGroup(a: bv8, b: bv8, c: bv8, rest: seq<bv8>)
    requires Decode(rest).Some?
    ensures Regroupable(a, b, c)
    ensures Decode(Symbols(a, b, c) + rest) == Some([a, b, c] + Decode(rest).value)
  {
    Regroup(a, b, c);
    SymbolValue(a >> 2);
    SymbolValue(((a & 3) << 4) | (b >> 4));
    SymbolValue(((b & 15) << 2) | (c >> 6));
    SymbolValue(c & 63);
    assert (Symbols(a, b, c) + rest)[4..] == rest;
  }

  function Symbols(a: bv8, b: bv8, c: bv8): seq<bv8>
    requires Regroupable(a, b, c)
  {
    [Symbol(a >> 2), Symbol(((a & 3) << 4) | (b >> 4)), Symbol(((b & 15) << 2) | (c >> 6)), Symbol(c & 63)]
  }

  lemma EncodeGroup(data: seq<bv8>)
    requires |data| > 2
    ensures Regroupable(data[0], data[1], data[2])
    ensures Encode(data) == Symbols(data[0], data[1], data[2]) + Encode(data[3..])
  {
    Regroup(data[0], data[1], data[2]);
  }

  predicate Regroupable(a: bv8, b: bv8, c: bv8) {
    a >> 2 < 64 && ((a & 3) << 4) | (b >> 4) < 64 && ((b & 15) << 2) | (c >> 6) < 64 && c & 63 < 64
  }

  lemma SplitThree<T>(s: seq<T>)
    requires |s| > 2
    ensures s == [s[0], s[1], s[2]] + s[3..]
  {
  }

  lemma DecodeLong(data: seq<bv8>)
    requires |data| > 2 && Decode(Encode(data[3..])) == Some(data[3..])
    ensures Decode(Encode(data)) == Some(data)
  {
    EncodeGroup(data);
    DecodeGroup(data[0], data[1], data[2], Encode(data[3..]));
    SplitThree(data);
  }

  lemma DecodeShort(data: seq<bv8>)
    requires 0 < |data| <= 2
    ensures Decode(Encode(data)) == Some(data)
  {
    if |data| == 1 {
      DecodeOne(data[0]);
      assert data == [data[0]];
    } else {
      DecodeTwo(data[0], data[1]);
      assert data == [data[0], data[1]];
    }
  }

  lemma {:induction false} DecodeInvertsEncode(data: seq<bv8>)
    ensures Decode(Encode(data)) == Some(data)
  {
    if data != [] {
      if |data| <= 2 {
        DecodeShort(data);
      } else {
        DecodeInvertsEncode(data[3..]);
        DecodeLong(data);
      }
    }
  }

  // ------------------------------------------------------- the alphabet and the grouping of the standard

  /** Table 1 of RFC 4648: the letters A to Z and a to z, the digits, plus and slash. */
  lemma AlphabetIs(x: bv8)
    requires x < 64
    ensures x < 26 ==> Symbol(x) == 65 + x
    ensures 26 <= x < 52 ==> Symbol(x) == 97 + (x - 26)
    ensures 52 <= x < 62 ==> Symbol(x) == 48 + (x - 52)
    ensures x == 62 ==> Symbol(x) == 43
    ensures x == 63 ==> Symbol(x) == 47
  {
  }

  /** A character is a symbol exactly if it stands for some six bits. */
  lemma SymbolIff(c: bv8)
    ensures IsSymbol(c) <==> exists x: bv8 :: x < 64 && Symbol(x) == c
  {
    if IsSymbol(c) { assert Symbol(Value(c)) == c; }
    if x: bv8 :| x < 64 && Symbol(x) == c { SymbolValue(x); }
  }

  /** Three bytes as one number of 24 bits. */
  function Bytes24(a: bv8, b: bv8, c: bv8): bv24 {
    ((a as bv24) << 16) | ((b as bv24) << 8) | (c as bv24)
  }

  /** Four groups of six bits as one number of 24 bits. */
  function Groups24(x: bv8, y: bv8, z: bv8, w: bv8): bv24 {
    ((x as bv24) << 18) | ((y as bv24) << 12) | ((z as bv24) << 6) | (w as bv24)
  }

  lemma SameBits(a: bv8, b: bv8, c: bv8)
    ensures Groups24(a >> 2, ((a & 3) << 4) | (b >> 4), ((b & 15) << 2) | (c >> 6), c & 63) == Bytes24(a, b, c)
  {
  }

  /** Four characters for three bytes, of which the last ones may be padding: the bits are the same, in order. */
  ghost predicate IsGroup(text: seq<bv8>, a: bv8, b: bv8, c: bv8, pads: nat) {
    exists x: bv8, y: bv8, z: bv8, w: bv8 ::
      && x < 64 && y < 64 && z < 64 && w < 64 && Groups24(x, y, z, w) == Bytes24(a, b, c)
      && text == [Symbol(x), Symbol(y), if pads > 1 then PAD else Symbol(z), if pads > 0 then PAD else Symbol(w)]
  }

  /** The byte at a place, or zero bits beyond the end. */
  function ByteAt(data: seq<bv8>, i: nat): bv8 {
    if i < |data| then data[i] else 0
  }

  /** The witness for a group, with its symbols at hand. */
  lemma GroupOf(a: bv8, b: bv8, c: bv8, pads: nat, text: seq<bv8>)
    requires Regroupable(a, b, c)
    requires text == [Symbol(a >> 2), Symbol(((a & 3) << 4) | (b >> 4)),
                      if pads > 1 then PAD else Symbol(((b & 15) << 2) | (c >> 6)),
                      if pads > 0 then PAD else Symbol(c & 63)]
    ensures IsGroup(text, a, b, c, pads)
  {
    SameBits(a, b, c);
  }

  lemma ShortGroups(a: bv8, b: bv8)
    ensures ((b & 15) << 2) | ((0 as bv8) >> 6) == (b & 15) << 2
    ensures ((a & 3) << 4) | ((0 as bv8) >> 4) == (a & 3) << 4
  {
  }

  lemma GroupOfOne(a: bv8)
    ensures |Encode([a])| == 4 && IsGroup(Encode([a]), a, 0, 0, 2)
  {
    Regroup(a, 0, 0);
    RegroupShort(a, 0);
    ShortGroups(a, 0);
    GroupOf(a, 0, 0, 2, Encode([a]));
  }

  lemma GroupOfTwo(a: bv8, b: bv8)
    ensures |Encode([a, b])| == 4 && IsGroup(Encode([a, b]), a, b, 0, 1)
  {
    Regroup(a, b, 0);
    EncodeTwo(a, b);
    ShortGroups(a, b);
    GroupOf(a, b, 0, 1, Encode([a, b]));
  }

  lemma GroupOfThree(data: seq<bv8>)
    requires |data| > 2
    ensures |Encode(data)| == 4 + |Encode(data[3..])| && Encode(data)[4..] == Encode(data[3..])
    ensures IsGroup(Encode(data)[..4], data[0], data[1], data[2], 0)
  {
    EncodeGroup(data);
    GroupOf(data[0], data[1], data[2], 0, Symbols(data[0], data[1], data[2]));
    assert Encode(data)[..4] == Symbols(data[0], data[1], data[2]);
  }

  /** The group of the last one or two bytes. */
  lemma LastGroup(data: seq<bv8>)
    requires 0 < |data| <= 2
    ensures |Encode(data)| == 4 && IsGroup(Encode(data), data[0], ByteAt(data, 1), 0, 3 - |data|)
  {
    if |data| == 1 {
      GroupOfOne(data[0]);
      assert data == [data[0]];
    } else {
      GroupOfTwo(data[0], data[1]);
      assert data == [data[0], data[1]];
    }
  }

  /** Four characters for every three bytes begun. */
  function LengthFor(n: nat): nat { 4 * ((n + 2) / 3) }

  lemma ShortLength(data: seq<bv8>)
    requires 0 < |data| <= 2
    ensures |Encode(data)| == 4
  {
    LastGroup(data);
  }

  lemma LongLength(data: seq<bv8>)
    requires |data| > 2
    ensures |Encode(data)| == 4 + |Encode(data[3..])|
  {
    GroupOfThree(data);
  }

  lemma LengthOneMore(n: nat)
    ensures n > 2 ==> LengthFor(n) == 4 + LengthFor(n - 3)
    ensures LengthFor(0) == 0 && (0 < n <= 2 ==> LengthFor(n) == 4)
  {
  }

  lemma {:induction false} EncodedLength(data: seq<bv8>)
    ensures |Encode(data)| == LengthFor(|data|)
  {
    LengthOneMore(|data|);
    if |data| > 2 {
      EncodedLength(data[3..]);
      LongLength(data);
    } else if data != [] {
      ShortLength(data);
    }
  }

  lemma GroupFits(n: nat, k: nat)
    requires 3 * k < n
    ensures 4 * k + 4 <= LengthFor(n) == 4 * ((n + 2) / 3)
  {
  }

  /** The pads of the k-th group. */
  function PadsAt(n: nat, k: nat): nat {
    if n < 3 * k + 3 then 3 * k + 3 - n else 0
  }

  type GroupTest = (seq<bv8>, bv8, bv8, bv8, nat) -> bool

  /** The k-th four characters are a group of the k-th three bytes. */
  ghost predicate GroupedAt(group: GroupTest, text: seq<bv8>, data: seq<bv8>, k: nat)
    requires 3 * k < |data| && 4 * k + 4 <= |text|
  {
    group(text[4 * k..4 * k + 4], data[3 * k], ByteAt(data, 3 * k + 1), ByteAt(data, 3 * k + 2), PadsAt(|data|, k))
  }

  /** What is known of the text of some data: its first group, and that the rest is the text of the rest. */
  ghost predicate Unfolds(group: GroupTest, encode: seq<bv8> -> seq<bv8>, data: seq<bv8>)
    requires data != []
  {
    && |encode(data)| == LengthFor(|data|)
    && if |data| <= 2 then group(encode(data), data[0], ByteAt(data, 1), 0, 3 - |data|)
       else group(encode(data)[..4], data[0], data[1], data[2], 0) && encode(data)[4..] == encode(data[3..])
  }

  lemma FirstIsGrouped(group: GroupTest, encode: seq<bv8> -> seq<bv8>, data: seq<bv8>)
    requires data != [] && Unfolds(group, encode, data)
    ensures 4 <= |encode(data)| && GroupedAt(group, encode(data), data, 0)
  {
    if |data| <= 2 { assert encode(data)[..4] == encode(data); }
  }

  lemma RestIsGrouped(group: GroupTest, text: seq<bv8>, data: seq<bv8>, rest: seq<bv8>, k: nat)
    requires k > 0 && 3 * k < |data| && 4 * k + 4 <= |text| == 4 + |rest| && text[4..] == rest
    requires GroupedAt(group, rest, data[3..], k - 1)
    ensures GroupedAt(group, text, data, k)
  {
    SliceOfRest(text, rest, k);
  }

  /** Group by group, whatever a group is. */
  lemma {:induction false} AllGrouped(group: GroupTest, encode: seq<bv8> -> seq<bv8>, data: seq<bv8>, k: nat)
    requires 3 * k < |data| && forall d | d != [] :: Unfolds(group, encode, d)
    ensures 4 * k + 4 <= |encode(data)| && GroupedAt(group, encode(data), data, k)
  {
    assert Unfolds(group, encode, data);
    GroupFits(|data|, k);
    if k == 0 {
      FirstIsGrouped(group, encode, data);
    } else {
      AllGrouped(group, encode, data[3..], k - 1);
      RestIsGrouped(group, encode(data), data, encode(data[3..]), k);
    }
  }

  lemma EncodeUnfolds(data: seq<bv8>)
    requires data != []
    ensures Unfolds(IsGroup, Encode, data)
  {
    EncodedLength(data);
    if |data| <= 2 { LastGroup(data); } else { GroupOfThree(data); }
  }

  /** Section 4 of RFC 4648: the k-th four characters are the k-th three bytes, the missing ones padded. */
  lemma EncodeIsGrouped(data: seq<bv8>, k: nat)
    requires 3 * k < |data|
    ensures |Encode(data)| == LengthFor(|data|) && 4 * k + 4 <= |Encode(data)|
    ensures GroupedAt(IsGroup, Encode(data), data, k)
  {
    EncodedLength(data);
    forall d | d != [] ensures Unfolds(IsGroup, Encode, d) { EncodeUnfolds(d); }
    AllGrouped(IsGroup, Encode, data, k);
  }

  lemma SliceOfRest<T>(text: seq<T>, rest: seq<T>, k: nat)
    requires k > 0 && |text| == 4 + |rest| && text[4..] == rest && 4 * (k - 1) + 4 <= |rest|
    ensures text[4 * k..4 * k + 4] == rest[4 * (k - 1)..4 * (k - 1) + 4]
  {
  }

  // ------------------------------------------------------- which texts decode

  /** Groups of four symbols, of which the last one may end in one or two pads. */
  ghost predicate WellFormed(text: seq<bv8>, pads: nat) {
    && |text| % 4 == 0 && pads <= 2 && pads <= |text|
    && (forall i | 0 <= i < |text| - pads :: IsSymbol(text[i]))
    && (forall i | |text| - pads <= i < |text| :: text[i] == PAD)
  }

  lemma {:induction false} DecodesIff(text: seq<bv8>)
    ensures Decode(text).Some? <==> exists pads :: WellFormed(text, pads)
  {
    if text == [] {
      assert WellFormed(text, 0);
    } else if |text| >= 4 {
      DecodesIff(text[4..]);
      if pads :| WellFormed(text, pads) { assert |text| > 4 ==> WellFormed(text[4..], pads); }
      if pads :| WellFormed(text[4..], pads) {
        assert (forall i | 0 <= i < 4 :: IsSymbol(text[i])) ==> WellFormed(text, pads) by {
          assert forall i | 4 <= i < |text| :: text[i] == text[4..][i - 4];
        }
      }
      if |text| == 4 {
        assert WellFormed(text, 2) <==> IsSymbol(text[0]) && IsSymbol(text[1]) && text[2] == PAD && text[3] == PAD;
        assert WellFormed(text, 1) <==>
            IsSymbol(text[0]) && IsSymbol(text[1]) && IsSymbol(text[2]) && text[3] == PAD;
        assert WellFormed(text, 0) <==> forall i | 0 <= i < 4 :: IsSymbol(text[i]);
      }
    }
  }
}

/** UTF-8 as RFC 3629 defines it: the encoding of section 3, the byte grammar of section 4, and the
    pointer stepping that GLib builds on them. */
module Utf8 {
  import opened Bytes

  /** Unicode scalar values other than NUL, which ends a C string. */
  type CodePoint = c: int | 0 < c <= 0x10_FFFF && !(0xD800 <= c <= 0xDFFF) witness 1

  predicate IsCodePoint(c: int) {
    0 < c <= 0x10_FFFF && !(0xD800 <= c <= 0xDFFF)
  }

  // ---- Section 3 ----

  function Encode(c: CodePoint): (s: seq<byte>)
    ensures 1 <= |s| <= 4
    ensures |s| == Skip(s[0]) && !Continuation(s[0])
    ensures forall i :: 0 < i < |s| ==> Continuation(s[i])
  {
    if c < 0x80 then [c as byte]
    else if c < 0x800 then [0xC0 + c / 64, Tail(c)]
    else if c < 0x1_0000 then [0xE0 + c / 4096, Tail(c / 64), Tail(c)]
    else
      var lead: byte := 0xF0 + c / 262144;
      [lead, Tail(c / 4096), Tail(c / 64), Tail(c)]
  }

  /** A continuation byte with the six low bits of x. */
  function Tail(x: nat): (b: byte)
    ensures Continuation(b)
  {
    0x80 + x % 64
  }

  function EncodeAll(text: seq<CodePoint>): seq<byte> {
    if text == [] then [] else Encode(text[0]) + EncodeAll(text[1..])
  }

  predicate Continuation(b: byte) {
    0x80 <= b <= 0xBF
  }

  /** g_utf8_skip: how far the next character is from a lead byte. */
  function Skip(b: byte): (n: nat)
    ensures 1 <= n <= 6
  {
    if b < 0xC0 then 1
    else if b < 0xE0 then 2
    else if b < 0xF0 then 3
    else if b < 0xF8 then 4
    else if b < 0xFC then 5
    else if b < 0xFE then 6
    else 1
  }

  // ---- Section 4 ----

  predicate TailAt(s: seq<byte>, from: nat, to: nat)
    requires to <= |s|
  {
    forall i :: from <= i < to ==> Continuation(s[i])
  }

  /** The length of the character that the grammar finds at the start of s, 0 if it finds none. */
  function CharLength(s: seq<byte>): (n: nat)
    ensures n <= 4 && n <= |s|
  {
    if |s| == 0 then 0
    else if 0x01 <= s[0] <= 0x7F then 1
    else if |s| >= 2 && 0xC2 <= s[0] <= 0xDF && TailAt(s, 1, 2) then 2
    else if |s| >= 3 && TailAt(s, 1, 3) &&
      (|| (s[0] == 0xE0 && 0xA0 <= s[1])
       || 0xE1 <= s[0] <= 0xEC
       || (s[0] == 0xED && s[1] <= 0x9F)
       || 0xEE <= s[0] <= 0xEF) then 3
    else if |s| >= 4 && TailAt(s, 1, 4) &&
      (|| (s[0] == 0xF0 && 0x90 <= s[1])
       || 0xF1 <= s[0] <= 0xF3
       || (s[0] == 0xF4 && s[1] <= 0x8F)) then 4
    else 0
  }

  predicate WellFormed(s: seq<byte>) {
    s == [] || (CharLength(s) > 0 && WellFormed(s[CharLength(s)..]))
  }

  function DecodeChar(s: seq<byte>): (c: nat)
    requires CharLength(s) > 0
  {
    var n := CharLength(s);
    var b0: int := s[0];
    if n == 1 then b0
    else
      var b1: int := s[1];
      if n == 2 then (b0 - 0xC0) * 64 + (b1 - 0x80)
      else
        var b2: int := s[2];
        if n == 3 then (b0 - 0xE0) * 4096 + (b1 - 0x80) * 64 + (b2 - 0x80)
        else
          var b3: int := s[3];
          (b0 - 0xF0) * 262144 + (b1 - 0x80) * 4096 + (b2 - 0x80) * 64 + (b3 - 0x80)
  }

  /** Reading off base-64 digits. */
  lemma Digits(a: nat, x: nat)
    requires x < 64
    ensures (a * 64 + x) / 64 == a && (a * 64 + x) % 64 == x
  {
  }

  lemma DecodedPair(s: seq<byte>)
    requires CharLength(s) == 2
    ensures IsCodePoint(DecodeChar(s)) && Encode(DecodeChar(s)) == s[..2]
  {
    var b0: int, b1: int := s[0], s[1];
    Digits(b0 - 0xC0, b1 - 0x80);
  }

  lemma DecodedTriple(s: seq<byte>)
    requires CharLength(s) == 3
    ensures IsCodePoint(DecodeChar(s)) && Encode(DecodeChar(s)) == s[..3]
  {
    var b0: int, b1: int, b2: int := s[0], s[1], s[2];
    Digits(b0 - 0xE0, b1 - 0x80);
    Digits((b0 - 0xE0) * 64 + (b1 - 0x80), b2 - 0x80);
    Nested(DecodeChar(s));
  }

  lemma DecodedQuadruple(s: seq<byte>)
    requires CharLength(s) == 4
    ensures IsCodePoint(DecodeChar(s)) && Encode(DecodeChar(s)) == s[..4]
  {
    var b0: int, b1: int, b2: int, b3: int := s[0], s[1], s[2], s[3];
    Digits(b0 - 0xF0, b1 - 0x80);
    Digits((b0 - 0xF0) * 64 + (b1 - 0x80), b2 - 0x80);
    Digits((b0 - 0xF0) * 4096 + (b1 - 0x80) * 64 + (b2 - 0x80), b3 - 0x80);
    Nested(DecodeChar(s));
  }

  /** The grammar accepts no overlong form, no surrogate and nothing above U+10FFFF. */
  lemma DecodedIsCodePoint(s: seq<byte>)
    requires CharLength(s) > 0
    ensures IsCodePoint(DecodeChar(s))
    ensures Encode(DecodeChar(s)) == s[..CharLength(s)]
  {
    var n := CharLength(s);
    if n == 2 {
      DecodedPair(s);
    } else if n == 3 {
      DecodedTriple(s);
    } else if n == 4 {
      DecodedQuadruple(s);
    }
  }

  lemma Nested(c: nat)
    ensures c / 4096 == c / 64 / 64 && c / 262144 == c / 64 / 64 / 64
  {
  }

  function Decode(s: seq<byte>): seq<CodePoint>
    requires WellFormed(s)
  {
    if s == [] then []
    else
      DecodedIsCodePoint(s);
      [DecodeChar(s)] + Decode(s[CharLength(s)..])
  }

  // ---- The two definitions agree ----

  lemma EncodedCharLength(c: CodePoint, rest: seq<byte>)
    ensures CharLength(Encode(c) + rest) == |Encode(c)|
    ensures DecodeChar(Encode(c) + rest) == c
  {
    Nested(c);
  }

  lemma {:induction false} EncodeAllWellFormed(text: seq<CodePoint>)
    ensures WellFormed(EncodeAll(text)) && Decode(EncodeAll(text)) == text
  {
    if text != [] {
      var s, rest := EncodeAll(text), EncodeAll(text[1..]);
      EncodeAllWellFormed(text[1..]);
      EncodedCharLength(text[0], rest);
      assert s[CharLength(s)..] == rest;
    }
  }

  lemma {:induction false} DecodeEncodes(s: seq<byte>)
    requires WellFormed(s)
    ensures EncodeAll(Decode(s)) == s
  {
    if s != [] {
      var n := CharLength(s);
      DecodedIsCodePoint(s);
      DecodeEncodes(s[n..]);
      var text := Decode(s);
      hide CharLength, DecodeChar, Encode;
      assert text[0] == DecodeChar(s) && text[1..] == Decode(s[n..]);
      assert EncodeAll(text) == s[..n] + s[n..];
    }
  }

  /** A byte string is well formed by the grammar of section 4 exactly when it is the encoding by
      section 3 of some code points, and of only one sequence of them. */
  lemma WellFormedIff(s: seq<byte>)
    ensures WellFormed(s) <==> exists text :: EncodeAll(text) == s
    ensures forall t, u :: EncodeAll(t) == s && EncodeAll(u) == s ==> t == u
  {
    if WellFormed(s) {
      DecodeEncodes(s);
    }
    forall t | EncodeAll(t) == s ensures WellFormed(s) && t == Decode(s) {
      EncodeAllWellFormed(t);
    }
  }

  // ---- Encodings of parts ----

  lemma EncodeAllStep(text: seq<CodePoint>)
    requires text != []
    ensures EncodeAll(text) == Encode(text[0]) + EncodeAll(text[1..])
  {
  }

  lemma Associative(x: seq<byte>, y: seq<byte>, z: seq<byte>)
    ensures x + (y + z) == (x + y) + z
  {
  }

  lemma {:induction false} EncodeAllSplit(a: seq<CodePoint>, b: seq<CodePoint>)
    ensures EncodeAll(a + b) == EncodeAll(a) + EncodeAll(b)
  {
    if a == [] {
      assert a + b == b;
    } else {
      hide *;
      assert (a + b)[0] == a[0] && (a + b)[1..] == a[1..] + b;
      EncodeAllStep(a + b);
      EncodeAllSplit(a[1..], b);
      EncodeAllStep(a);
      Associative(Encode(a[0]), EncodeAll(a[1..]), EncodeAll(b));
    }
  }

  lemma {:induction false} NoMoreCharsThanBytes(text: seq<CodePoint>)
    ensures |text| <= |EncodeAll(text)|
  {
    if text != [] {
      NoMoreCharsThanBytes(text[1..]);
    }
  }

  /** Where the character at an index starts. */
  function OffsetOf(text: seq<CodePoint>, i: nat): nat
    requires i <= |text|
  {
    |EncodeAll(text[..i])|
  }

  lemma OffsetStep(text: seq<CodePoint>, i: nat)
    requires i < |text|
    ensures OffsetOf(text, i + 1) == OffsetOf(text, i) + |Encode(text[i])| <= |EncodeAll(text)|
    ensures EncodeAll(text)[OffsetOf(text, i)..OffsetOf(text, i + 1)] == Encode(text[i])
  {
    var a, c, b := text[..i], [text[i]], text[i + 1..];
    EncodeAllSplit(a, c);
    EncodeAllSplit(a + c, b);
    assert text[..i + 1] == a + c && text == a + c + b;
    assert EncodeAll(c) == Encode(text[i]) + EncodeAll([]);
  }

  lemma OffsetBound(text: seq<CodePoint>, i: nat)
    requires i <= |text|
    ensures OffsetOf(text, i) <= |EncodeAll(text)|
    ensures EncodeAll(text)[..OffsetOf(text, i)] == EncodeAll(text[..i])
    ensures EncodeAll(text)[OffsetOf(text, i)..] == EncodeAll(text[i..])
  {
    EncodeAllSplit(text[..i], text[i..]);
    assert text == text[..i] + text[i..];
  }

  lemma {:induction false} OffsetMonotone(text: seq<CodePoint>, i: nat, j: nat)
    requires i < j <= |text|
    ensures OffsetOf(text, i) < OffsetOf(text, j)
  {
    OffsetStep(text, j - 1);
    if i < j - 1 {
      OffsetMonotone(text, i, j - 1);
    }
  }

  // ---- GLib's stepping ----

  lemma EncodeNotNul(c: CodePoint)
    ensures Encode(c)[0] != 0
  {
  }

  /** The lead byte of a character is no NUL and tells where the next character starts. */
  lemma LeadByte(s: seq<byte>, text: seq<CodePoint>, i: nat)
    requires EncodeAll(text) <= s && i < |text|
    ensures
      var at := OffsetOf(text, i);
      at < |s| && s[at] != 0 && at + Skip(s[at]) == OffsetOf(text, i + 1)
  {
    hide *;
    OffsetStep(text, i);
    EncodeNotNul(text[i]);
    var at, all, bytes := OffsetOf(text, i), EncodeAll(text), Encode(text[i]);
    assert at + |bytes| <= |all| && all[at..at + |bytes|] == bytes;
    assert s[at] == all[at] == bytes[0];
  }

  /** g_utf8_offset_to_pointer, as an index into s. */
  method OffsetToPointer(s: seq<byte>, offset: nat, ghost text: seq<CodePoint>) returns (at: nat)
    requires EncodeAll(text) <= s && offset <= |text|
    ensures at == OffsetOf(text, offset)
  {
    at := 0;
    var n := offset;
    while n > 0
      invariant 0 <= n <= offset
      invariant at == OffsetOf(text, offset - n)
    {
      LeadByte(s, text, offset - n);
      at := at + Skip(s[at]);
      n := n - 1;
    }
  }

  /** The character that a byte belongs to. */
  lemma {:induction false} CharacterAt(text: seq<CodePoint>, i: nat, bound: nat) returns (k: nat)
    requires bound <= |text| && i < OffsetOf(text, bound)
    ensures k < bound && OffsetOf(text, k) <= i < OffsetOf(text, k + 1)
  {
    if OffsetOf(text, bound - 1) <= i {
      k := bound - 1;
    } else {
      k := CharacterAt(text, i, bound - 1);
    }
  }

  /** g_utf8_find_prev_char, as an index into s: the start of the character that the byte before p is in. */
  method FindPrevChar(s: seq<byte>, p: nat, ghost text: seq<CodePoint>) returns (at: nat, ghost k: nat)
    requires EncodeAll(text) <= s && 0 < p <= |EncodeAll(text)|
    ensures k < |text| && at == OffsetOf(text, k) < p <= OffsetOf(text, k + 1)
  {
    assert text[..|text|] == text;
    k := CharacterAt(text, p - 1, |text|);
    OffsetStep(text, k);
    at := p - 1;
    while Continuation(s[at])
      invariant OffsetOf(text, k) <= at < p
      decreases at
    {
      assert s[at] == Encode(text[k])[at - OffsetOf(text, k)];
      at := at - 1;
    }
    assert s[at] == Encode(text[k])[at - OffsetOf(text, k)];
  }

  /** g_utf8_strlen with a byte limit that falls between two characters. */
  method StrLen(s: seq<byte>, max: nat, ghost text: seq<CodePoint>, ghost k: nat) returns (len: nat)
    requires EncodeAll(text) <= s && k <= |text| && max == OffsetOf(text, k)
    ensures len == k
  {
    OffsetBound(text, k);
    len := 0;
    if k > 0 {
      LeadByte(s, text, 0);
      OffsetMonotone(text, 0, k);
    }
    if max == 0 || s[0] == 0 {
      return;
    }
    var p := Skip(s[0]);
    while p < max && s[p] != 0
      invariant len < k && p == OffsetOf(text, len + 1)
      decreases k - len
    {
      NextBefore(text, len + 1, k);
      LeadByte(s, text, len + 1);
      p := p + Skip(s[p]);
      len := len + 1;
    }
    NextBefore(text, len + 1, k);
    if len + 1 < k {
      LeadByte(s, text, len + 1);
    }
    if p <= max {
      len := len + 1;
    }
  }

  lemma NextBefore(text: seq<CodePoint>, i: nat, k: nat)
    requires i <= k <= |text|
    ensures OffsetOf(text, i) <= OffsetOf(text, k)
    ensures OffsetOf(text, i) < OffsetOf(text, k) <==> i < k
  {
    if i < k {
      OffsetMonotone(text, i, k);
    }
  }
}

/** The growable text buffer behind password entries: bytes, byte count and character count kept by
    hand, refining a plain sequence of code points. */
module SecureTextBuffer {
  import opened Bytes
  import opened Utf8

  const MIN_SIZE := 16
  const MAX_SIZE := 65535

  ghost function Splice(text: seq<CodePoint>, position: nat, more: seq<CodePoint>): seq<CodePoint>
    requires position <= |text|
  {
    text[..position] + more + text[position..]
  }

  ghost function Cut(text: seq<CodePoint>, position: nat, n: nat): seq<CodePoint>
    requires position + n <= |text|
  {
    text[..position] + text[position + n..]
  }

  /** How many of the first n characters go into so many bytes. */
  ghost predicate LongestFit(text: seq<CodePoint>, n: nat, room: int, fit: nat) {
    && fit <= n <= |text|
    && OffsetOf(text, fit) <= room
    && (fit < n ==> OffsetOf(text, fit + 1) > room)
  }

  /** There is one longest fit, and every shorter prefix fits too. */
  lemma LongestFitUnique(text: seq<CodePoint>, n: nat, room: int, fit: nat, k: nat)
    requires LongestFit(text, n, room, fit) && k <= n
    ensures OffsetOf(text, k) <= room <==> k <= fit
  {
    if k <= fit {
      NextBefore(text, k, fit);
    } else {
      NextBefore(text, fit + 1, k);
    }
  }

  lemma EncodeSplice(text: seq<CodePoint>, position: nat, more: seq<CodePoint>)
    requires position <= |text|
    ensures
      var at := OffsetOf(text, position);
      && at <= |EncodeAll(text)|
      && EncodeAll(Splice(text, position, more)) == EncodeAll(text)[..at] + EncodeAll(more) + EncodeAll(text)[at..]
  {
    OffsetBound(text, position);
    EncodeAllSplit(text[..position], more);
    EncodeAllSplit(text[..position] + more, text[position..]);
  }

  lemma EncodeCut(text: seq<CodePoint>, position: nat, n: nat)
    requires position + n <= |text|
    ensures
      var start, end := OffsetOf(text, position), OffsetOf(text, position + n);
      && start <= end <= |EncodeAll(text)|
      && EncodeAll(Cut(text, position, n)) == EncodeAll(text)[..start] + EncodeAll(text)[end..]
  {
    var start, end := OffsetOf(text, position), OffsetOf(text, position + n);
    assert start <= end by {
      NextBefore(text, position, position + n);
    }
    assert start <= |EncodeAll(text)| && EncodeAll(text)[..start] == EncodeAll(text[..position]) by {
      OffsetBound(text, position);
    }
    assert end <= |EncodeAll(text)| && EncodeAll(text)[end..] == EncodeAll(text[position + n..]) by {
      OffsetBound(text, position + n);
    }
    EncodeAllSplit(text[..position], text[position + n..]);
  }

  /** Deleting what was inserted, where it was inserted, gives the old text back. */
  lemma CutSplice(text: seq<CodePoint>, position: nat, more: seq<CodePoint>)
    requires position <= |text|
    ensures Cut(Splice(text, position, more), position, |more|) == text
  {
    assert Splice(text, position, more)[position + |more|..] == text[position..];
  }

  class ShellSecureTextBuffer {
    var text: array?<byte>
    var textSize: nat
    var textBytes: nat
    var textChars: nat
    ghost var contents: seq<CodePoint>

    ghost predicate Stored()
      reads this, text
    {
      && textBytes == |EncodeAll(contents)| && textChars == |contents|
      && (text == null ==> textSize == 0 && contents == [])
      && (text != null ==>
        && text.Length == textSize && textBytes + 1 <= textSize <= MAX_SIZE
        && text[..textBytes] == EncodeAll(contents))
    }

    /** The bytes are the UTF-8 of the contents, both counters are right and a NUL follows. */
    ghost predicate Valid()
      reads this, text
    {
      Stored() && (text != null ==> text[textBytes] == 0)
    }

    constructor ()
      ensures Valid() && contents == [] && text == null
    {
      text := null;
      textSize, textBytes, textChars := 0, 0, 0;
      contents := [];
    }

    /** gcr_secure_memory_realloc to textSize: the old bytes are kept. */
    method Reallocate(ghost oldSize: nat)
      requires oldSize <= textSize
      requires if text == null then oldSize == 0 else text.Length == oldSize
      modifies `text
      ensures text != null && text.Length == textSize && fresh(text)
      ensures old(text) != null ==> text[..oldSize] == old(text[..])
    {
      var bigger := new byte[textSize];
      if text != null {
        forall i | 0 <= i < text.Length {
          bigger[i] := text[i];
        }
      }
      text := bigger;
    }

    /** The growth block: afterwards the returned prefix of chars fits. */
    method MakeRoom(chars: seq<byte>, nBytes0: nat, nChars0: nat, ghost more: seq<CodePoint>)
      returns (nBytes: nat, nChars: nat)
      requires Stored() && EncodeAll(more) <= chars
      requires nChars0 <= |more| && nBytes0 == OffsetOf(more, nChars0)
      modifies `text, `textSize
      ensures Stored() && text != null && (text == old(text) || fresh(text))
      ensures textBytes + nBytes + 1 <= textSize
      ensures LongestFit(more, nChars0, MAX_SIZE - 1 - textBytes, nChars)
      ensures nBytes == OffsetOf(more, nChars)
      ensures unchanged(`textBytes, `textChars, `contents)
    {
      nBytes, nChars := nBytes0, nChars0;
      OffsetBound(more, nChars0);
      if nBytes + textBytes + 1 > textSize {
        ghost var oldSize := textSize;
        while nBytes + textBytes + 1 > textSize
          invariant oldSize <= textSize <= MAX_SIZE
          invariant nBytes == nBytes0 && nChars == nChars0 && text == old(text)
          decreases MAX_SIZE - textSize
        {
          if textSize == 0 {
            textSize := MIN_SIZE;
          } else if 2 * textSize < MAX_SIZE {
            textSize := textSize * 2;
          } else {
            textSize := MAX_SIZE;
            if nBytes > textSize - textBytes - 1 {
              nBytes := textSize - textBytes - 1;
              ghost var k;
              nBytes, k := FindPrevChar(chars, nBytes + 1, more);
              assert k < nChars0 by {
                if nChars0 <= k {
                  NextBefore(more, nChars0, k);
                }
              }
              nChars := StrLen(chars, nBytes, more, k);
            }
            break;
          }
        }
        Reallocate(oldSize);
      }
    }

    /** The insertion block: memmove, memcpy and the counters. */
    method PutBytes(at: nat, chars: seq<byte>, nBytes: nat, nChars: nat)
      requires text != null && textBytes + nBytes + 1 <= text.Length
      requires at <= textBytes && nBytes <= |chars|
      modifies text, `textBytes, `textChars
      ensures textBytes == old(textBytes) + nBytes && textChars == old(textChars) + nChars
      ensures text[..textBytes] == old(text[..at]) + chars[..nBytes] + old(text[at..textBytes])
      ensures text[textBytes] == 0
    {
      MemMove(text, at + nBytes, at, textBytes - at);
      forall i | 0 <= i < nBytes {
        text[at + i] := chars[i];
      }
      textBytes := textBytes + nBytes;
      textChars := textChars + nChars;
      text[textBytes] := 0;
    }

    static method MemMove(a: array<byte>, dst: nat, src: nat, n: nat)
      requires dst + n <= a.Length && src + n <= a.Length
      modifies a
      ensures a[..] == old(a[..dst]) + old(a[src..src + n]) + old(a[dst + n..])
    {
      forall i | 0 <= i < n {
        a[dst + i] := a[src + i];
      }
    }

    /** The part of an insertion behind the growth block. */
    method InsertPrefix(position: nat, chars: seq<byte>, nBytes: nat, nChars: nat, ghost more: seq<CodePoint>)
      requires Stored() && text != null && position <= textChars && textBytes + nBytes + 1 <= textSize
      requires EncodeAll(more) == chars && nChars <= |more| && nBytes == OffsetOf(more, nChars)
      modifies this, text
      ensures Valid() && text == old(text)
      ensures contents == Splice(old(contents), position, more[..nChars])
    {
      OffsetBound(more, nChars);
      EncodeSplice(contents, position, more[..nChars]);
      var at := OffsetToPointer(text[..textBytes], position, contents);
      ghost var bytes := text[..textBytes];
      PutBytes(at, chars, nBytes, nChars);
      contents := Splice(contents, position, more[..nChars]);
      assert old(text[..at]) == bytes[..at] && old(text[at..textBytes]) == bytes[at..];
    }

    /** shell_secure_text_buffer_real_insert_text: the longest prefix of whole characters that the maximal
        size allows is spliced in, and its length returned. */
    method InsertText(position: nat, chars: seq<byte>, nChars: nat) returns (inserted: nat)
      requires Valid() && position <= textChars
      requires WellFormed(chars) && nChars <= |Decode(chars)|
      modifies this, text
      ensures Valid() && (text == old(text) || fresh(text))
      ensures LongestFit(Decode(chars), nChars, MAX_SIZE - 1 - old(textBytes), inserted)
      ensures contents == Splice(old(contents), position, Decode(chars)[..inserted])
    {
      ghost var more := Decode(chars);
      DecodeEncodes(chars);
      var nBytes := OffsetToPointer(chars, nChars, more);
      nBytes, inserted := MakeRoom(chars, nBytes, nChars, more);
      InsertPrefix(position, chars, nBytes, inserted, more);
    }

    /** Moves the bytes behind the removed characters, the NUL included, down. */
    method RemoveBytes(start: nat, end: nat)
      requires text != null && start <= end <= textBytes < text.Length && text[textBytes] == 0
      modifies text, `textBytes
      ensures textBytes == old(textBytes) - (end - start)
      ensures text[..textBytes] == old(text[..start]) + old(text[end..textBytes])
      ensures text[textBytes] == 0
    {
      MemMove(text, start, end, textBytes + 1 - end);
      textBytes := textBytes - (end - start);
    }

    method RemoveChars(position: nat, n: nat)
      requires Valid() && text != null && position + n <= textChars
      modifies this, text
      ensures Valid() && text == old(text)
      ensures contents == Cut(old(contents), position, n)
    {
      EncodeCut(contents, position, n);
      ghost var bytes := text[..textBytes];
      var start := OffsetToPointer(text[..textBytes], position, contents);
      var end := OffsetToPointer(text[..textBytes], position + n, contents);
      RemoveBytes(start, end);
      textChars := textChars - n;
      contents := Cut(contents, position, n);
      assert old(text[..start]) == bytes[..start] && old(text[end..textBytes]) == bytes[end..];
    }

    /** shell_secure_text_buffer_real_delete_text. Positions are 32 bits wide, and the sum of the clamped
        position and the count must not wrap around. */
    method DeleteText(position0: uint32, nChars0: uint32) returns (n: nat)
      requires Valid()
      requires (if position0 > textChars then textChars else position0) + nChars0 < 0x1_0000_0000
      modifies this, text
      ensures Valid() && text == old(text)
      ensures
        var chars := |old(contents)|;
        var position := if position0 > chars then chars else position0;
        && n == (if position + nChars0 > chars then chars - position else nChars0)
        && contents == Cut(old(contents), position, n)
    {
      var position: nat := position0;
      n := nChars0;
      if position > textChars {
        position := textChars;
      }
      if (position + n) % 0x1_0000_0000 > textChars {
        n := textChars - position;
      }
      if n > 0 {
        RemoveChars(position, n);
      } else {
        assert Cut(contents, position, 0) == contents;
      }
    }

    /** Positions in a buffer stay far below 32 bits. */
    lemma ShortText()
      requires Valid()
      ensures |contents| < MAX_SIZE
    {
      NoMoreCharsThanBytes(contents);
    }

    /** What an insertion put in, a deletion of as many characters at the same place takes out again. */
    method InsertThenDelete(position: nat, chars: seq<byte>, nChars: nat)
      requires Valid() && position <= textChars
      requires WellFormed(chars) && nChars <= |Decode(chars)|
      modifies this, text
      ensures Valid() && contents == old(contents)
    {
      ghost var before, more := contents, Decode(chars);
      var inserted := InsertText(position, chars, nChars);
      ShortText();
      hide Stored, EncodeAll, Decode, WellFormed, OffsetOf;
      ghost var put := more[..inserted];
      CutSplice(before, position, put);
      assert |contents| == |before| + |put|;
      var n := DeleteText(position, inserted);
      assert n == |put|;
    }

    /** shell_secure_text_buffer_real_get_text. */
    method GetText() returns (bytes: seq<byte>)
      requires Valid()
      ensures WellFormed(bytes) && Decode(bytes) == contents
    {
      EncodeAllWellFormed(contents);
      if text == null {
        bytes := [];
      } else {
        bytes := text[..textBytes];
      }
    }

    method GetLength() returns (n: nat)
      requires Valid()
      ensures n == |contents|
    {
      n := textChars;
    }
  }
}

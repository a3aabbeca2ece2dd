/** Strings as the source keeps them: characters stored as UTF-8 bytes
    (section 3 of RFC 3629), with lengths and cuts counted in bytes. */
module Utf8 {
  import opened Numerals
  import opened Seqs

  function Encode(c: char): (bytes: seq<Octet>)
    ensures 1 <= |bytes| <= 4
  {
    var u := c as int;
    if u < 0x80 then [u]
    else if u < 0x800 then [0xC0 + u / 0x40, 0x80 + u % 0x40]
    else if u < 0x1_0000 then [0xE0 + u / 0x1000, 0x80 + u / 0x40 % 0x40, 0x80 + u % 0x40]
    else [0xF0 + u / 0x4_0000, 0x80 + u / 0x1000 % 0x40, 0x80 + u / 0x40 % 0x40, 0x80 + u % 0x40]
  }

  predicate IsContinuation(b: Octet) {
    0x80 <= b < 0xC0
  }

  /** Only the first byte of a character is not a continuation byte. */
  lemma {:induction false} EncodeShape(c: char, i: nat)
    requires i < |Encode(c)|
    ensures IsContinuation(Encode(c)[i]) <==> i > 0
  {
  }

  function Bytes(text: string): seq<Octet> {
    if text == [] then [] else Bytes(text[..|text| - 1]) + Encode(text[|text| - 1])
  }

  function ByteLength(text: string): nat {
    |Bytes(text)|
  }

  lemma {:induction false} BytesOfSnoc(text: string, c: char)
    ensures Bytes(text + [c]) == Bytes(text) + Encode(c)
  {
    assert (text + [c])[..|text|] == text;
  }

  lemma {:induction false} BytesOfAppend(a: string, b: string)
    ensures Bytes(a + b) == Bytes(a) + Bytes(b)
  {
    if b == [] {
      assert a + b == a;
    } else {
      var init, last := b[..|b| - 1], b[|b| - 1];
      BytesOfAppend(a, init);
      BytesOfSnoc(a + init, last);
      Assoc(Bytes(a), Bytes(init), Encode(last));
      Assoc(a, init, [last]);
      assert init + [last] == b;
    }
  }

  lemma {:induction false} BytesOfPrefix(text: string, k: nat)
    requires k <= |text|
    ensures Bytes(text) == Bytes(text[..k]) + Bytes(text[k..])
    ensures ByteLength(text[..k]) <= ByteLength(text)
  {
    var head, tail := text[..k], text[k..];
    assert text == head + tail;
    BytesOfAppend(head, tail);
  }

  lemma {:induction false} ByteLengthBounds(text: string)
    ensures |text| <= ByteLength(text) <= 4 * |text|
  {
    if text != [] {
      ByteLengthBounds(text[..|text| - 1]);
    }
  }

  function CodePoint(bytes: seq<int>): int
    requires 1 <= |bytes| <= 4
  {
    if |bytes| == 1 then bytes[0]
    else if |bytes| == 2 then (bytes[0] - 0xC0) * 0x40 + (bytes[1] - 0x80)
    else if |bytes| == 3 then (bytes[0] - 0xE0) * 0x1000 + (bytes[1] - 0x80) * 0x40 + (bytes[2] - 0x80)
    else (bytes[0] - 0xF0) * 0x4_0000 + (bytes[1] - 0x80) * 0x1000 + (bytes[2] - 0x80) * 0x40 + (bytes[3] - 0x80)
  }

  /** The bits of a character are all in its bytes, so no two characters share
      an encoding, ... */
  lemma {:induction false} EncodeKeepsCodePoint(c: char)
    ensures CodePoint(Encode(c)) == c as int
  {
    var u := c as int;
    assert u / 0x1000 == u / 0x40 / 0x40 && u / 0x4_0000 == u / 0x1000 / 0x40;
  }

  lemma {:induction false} LastCharacter(a: seq<Octet>, c: char, b: seq<Octet>, d: char)
    requires a + Encode(c) == b + Encode(d)
    ensures a == b && c == d
  {
    var all, m, n := a + Encode(c), |Encode(c)|, |Encode(d)|;
    assert all[|all| - m] == Encode(c)[0] && all[|all| - n] == Encode(d)[0];
    if m < n {
      assert all[|all| - m] == Encode(d)[n - m];
      EncodeShape(c, 0);
      EncodeShape(d, n - m);
    } else if n < m {
      assert all[|all| - n] == Encode(c)[m - n];
      EncodeShape(d, 0);
      EncodeShape(c, m - n);
    } else {
      assert Encode(c) == all[|all| - m..] == Encode(d) && a == all[..|all| - m] == b;
      EncodeKeepsCodePoint(c);
      EncodeKeepsCodePoint(d);
    }
  }

  /** ... nor do two strings: bytes determine the characters they encode. */
  lemma {:induction false} BytesAreInjective(a: string, b: string)
    requires Bytes(a) == Bytes(b)
    ensures a == b
  {
    ByteLengthBounds(a);
    ByteLengthBounds(b);
    if a != [] {
      var m, n := |a| - 1, |b| - 1;
      LastCharacter(Bytes(a[..m]), a[m], Bytes(b[..n]), b[n]);
      BytesAreInjective(a[..m], b[..n]);
      assert a == a[..m] + [a[m]] && b == b[..n] + [b[n]];
    }
  }

  /** The test `is_char_boundary` makes: an end of the string, or a byte that
      starts a character. */
  predicate IsBoundary(bytes: seq<Octet>, i: nat) {
    i == 0 || i == |bytes| || (i < |bytes| && !IsContinuation(bytes[i]))
  }

  /** The longest run of whole characters, from the start, that fits in `max` bytes. */
  function Longest(text: string, max: nat): (cut: string)
    ensures cut <= text && ByteLength(cut) <= max
  {
    if ByteLength(text) <= max then text else Longest(text[..|text| - 1], max)
  }

  lemma {:induction false} LongestIsGreatest(text: string, max: nat, k: nat)
    requires |Longest(text, max)| < k <= |text|
    ensures ByteLength(text[..k]) > max
  {
    if k == |text| {
      assert text[..k] == text;
    } else {
      LongestIsGreatest(text[..|text| - 1], max, k);
      assert text[..|text| - 1][..k] == text[..k];
    }
  }

  /** A byte position is a boundary exactly when whole characters end there. */
  lemma {:induction false} BoundaryEndsCharacters(text: string, i: nat)
    requires i <= ByteLength(text)
    ensures IsBoundary(Bytes(text), i) <==> ByteLength(Longest(text, i)) == i
  {
    if text != [] && i < ByteLength(text) {
      var init, last := text[..|text| - 1], text[|text| - 1];
      if i < ByteLength(init) {
        BoundaryEndsCharacters(init, i);
        assert Bytes(text)[i] == Bytes(init)[i];
      } else {
        EncodeShape(last, i - ByteLength(init));
        assert Bytes(text)[i] == Encode(last)[i - ByteLength(init)];
      }
    }
  }

  lemma {:induction false} LongestOfShorter(text: string, max: nat, end: nat)
    requires end <= max
    ensures ByteLength(Longest(text, end)) <= ByteLength(Longest(text, max))
    ensures ByteLength(Longest(text, end)) == end ==> end <= ByteLength(Longest(text, max))
    ensures ByteLength(Longest(text, max)) <= end ==> Longest(text, end) == Longest(text, max)
  {
    if ByteLength(text) > max {
      LongestOfShorter(text[..|text| - 1], max, end);
    } else {
      var cut := Longest(text, end);
      assert cut == text[..|cut|];
      BytesOfPrefix(text, |cut|);
    }
  }

  /** A growable string that is edited in place. */
  class Text {
    var chars: string

    constructor (initial: string)
      ensures chars == initial
    {
      chars := initial;
    }

    method Push(c: char)
      modifies this
      ensures chars == old(chars) + [c]
    {
      chars := chars + [c];
    }

    method PushStr(suffix: string)
      modifies this
      ensures chars == old(chars) + suffix
    {
      chars := chars + suffix;
    }

    /** Drops everything from byte `end` on, which must be a boundary. */
    method Truncate(end: nat)
      requires end <= ByteLength(chars) && IsBoundary(Bytes(chars), end)
      modifies this
      ensures chars <= old(chars) && ByteLength(chars) == end
      ensures chars == Longest(old(chars), end)
    {
      BoundaryEndsCharacters(chars, end);
      chars := Longest(chars, end);
    }

    /** Cuts to at most `max` bytes without splitting a character. */
    method TruncateBytes(max: nat)
      modifies this
      ensures chars == Longest(old(chars), max)
    {
      if ByteLength(chars) <= max {
        return;
      }
      var end := max;
      while !IsBoundary(Bytes(chars), end)
        invariant ByteLength(Longest(chars, max)) <= end <= max
        invariant chars == old(chars)
        decreases end
      {
        BoundaryEndsCharacters(chars, end);
        LongestOfShorter(chars, max, end);
        end := end - 1;
      }
      BoundaryEndsCharacters(chars, end);
      LongestOfShorter(chars, max, end);
      Truncate(end);
    }
  }
}

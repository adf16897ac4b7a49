// HTEscape.c: escaping the unsafe bytes of a URI (section 2.1 of RFC 3986) and undoing it in place.
module HTEscape {
  type byte = x: int | 0 <= x < 256

  const HEX_ESCAPE: byte := 37  // '%'

  // The table of lines 31-39.  Bit 0: xalpha, bit 1: xpalpha, bit 2: path, bit 3: DOS file.
  function IsAcceptable(a: byte): bv32 {
    if 48 <= a <= 57 || 64 <= a <= 90 || 97 <= a <= 122 || a == 95 || a == 42 || a == 45 || a == 46 then 0xF
    else if a == 43 then 0xE       // '+'
    else if a == 47 then 0xC       // '/'
    else if a == 58 then 0x8       // ':'
    else 0x0
  }

  // The digit with value n: line 40.
  function Hex(n: nat): byte
    requires n < 16
  {
    if n < 10 then 48 + n else 65 + (n - 10)
  }

  predicate Acceptable(a: byte, mask: bv32) {
    a >= 32 && a < 128 && IsAcceptable(a) & mask != 0
  }

  // HTAsciiHexToChar, in the arithmetic of a char.
  function AsciiHexToChar(c: byte): byte {
    if 48 <= c <= 57 then c - 48
    else if 65 <= c <= 70 then c - 65 + 10
    else (c - 97 + 10) % 256
  }

  // Sections 2.2 and 2.3 of RFC 3986.
  predicate Unreserved(a: byte) {
    65 <= a <= 90 || 97 <= a <= 122 || 48 <= a <= 57 || a in {45, 46, 95, 126}  // - . _ ~
  }

  predicate Reserved(a: byte) {
    || a in {58, 47, 63, 35, 91, 93, 64}                      // : / ? # [ ] @
    || a in {33, 36, 38, 39, 40, 41, 42, 43, 44, 59, 61}      // ! $ & ' ( ) * + , ; =
  }

  // What each mask lets through: the unreserved characters but the tilde, `@` and `*`, and with each mask
  // some more.  Nothing is let through, under any mask, that is no character of a URI, nor the percent sign.
  lemma TableOfMasks(a: byte)
    ensures Acceptable(a, 1) <==> (Unreserved(a) && a != 126) || a == 64 || a == 42
    ensures Acceptable(a, 2) <==> Acceptable(a, 1) || a == 43
    ensures Acceptable(a, 4) <==> Acceptable(a, 2) || a == 47
    ensures Acceptable(a, 8) <==> Acceptable(a, 4) || a == 58
  {
  }

  lemma OnlyOfUris(a: byte, mask: bv32)
    ensures Acceptable(a, mask) ==> (Unreserved(a) && a != 126) || a in {43, 47, 58, 64, 42}
    ensures Acceptable(a, mask) ==> Unreserved(a) || Reserved(a)
    ensures Acceptable(a, mask) ==> mask & 0xF != 0
  {
  }

  predicate NulFree(s: seq<byte>) {
    forall i :: 0 <= i < |s| ==> s[i] != 0
  }

  // ---------------------------------------------------------------------------------------------

  function EscapeByte(a: byte, mask: bv32): seq<byte> {
    if Acceptable(a, mask) then [a] else [HEX_ESCAPE, Hex(a / 16), Hex(a % 16)]
  }

  function Escaped(s: seq<byte>, mask: bv32): seq<byte> {
    if s == [] then [] else EscapeByte(s[0], mask) + Escaped(s[1..], mask)
  }

  function Unacceptable(s: seq<byte>, mask: bv32): nat {
    if s == [] then 0 else (if Acceptable(s[0], mask) then 0 else 1) + Unacceptable(s[1..], mask)
  }

  // The size the first pass computes is the size the second pass fills.
  lemma {:induction false} EscapedLength(s: seq<byte>, mask: bv32)
    ensures |Escaped(s, mask)| == |s| + 2 * Unacceptable(s, mask)
  {
    if s != [] {
      EscapedLength(s[1..], mask);
    }
  }

  lemma EscapedFrom(s: seq<byte>, p: nat, mask: bv32, out: seq<byte>)
    requires p < |s|
    ensures |Escaped(s[p..], mask)| == |EscapeByte(s[p], mask)| + |Escaped(s[p + 1..], mask)|
    ensures out + Escaped(s[p..], mask) == out + EscapeByte(s[p], mask) + Escaped(s[p + 1..], mask)
  {
    assert s[p..][1..] == s[p + 1..];
  }

  // HTEscape, on a string without its terminator.
  method Escape(str: seq<byte>, mask: bv32) returns (result: array<byte>)
    ensures fresh(result) && result[..] == Escaped(str, mask) + [0]
  {
    var unacceptable := CountUnacceptable(str, mask);
    EscapedLength(str, mask);
    result := new byte[|str| + unacceptable + unacceptable + 1](_ => 0);
    var q, p := 0, 0;
    ghost var out: seq<byte> := [];
    while p < |str|
      invariant p <= |str| && q == |out| && q + |Escaped(str[p..], mask)| + 1 == result.Length
      invariant result[..q] == out && out + Escaped(str[p..], mask) == Escaped(str, mask)
    {
      ghost var piece := EscapeByte(str[p], mask);
      EscapedFrom(str, p, mask, out);
      q := PutEscaped(result, q, str[p], mask);
      p, out := p + 1, out + piece;
    }
    assert str[p..] == [] && out + [] == out;
    result[q] := 0;
    assert result[..] == result[..q] + [0];
  }

  // Lines 67-69.
  method CountUnacceptable(str: seq<byte>, mask: bv32) returns (unacceptable: nat)
    ensures unacceptable == Unacceptable(str, mask)
  {
    unacceptable := 0;
    var p := 0;
    while p < |str|
      invariant p <= |str| && unacceptable + Unacceptable(str[p..], mask) == Unacceptable(str, mask)
    {
      if !Acceptable(str[p], mask) {
        unacceptable := unacceptable + 1;
      }
      p := p + 1;
    }
  }

  // Lines 73-79.
  method PutEscaped(result: array<byte>, q0: nat, a: byte, mask: bv32) returns (q: nat)
    requires q0 + |EscapeByte(a, mask)| <= result.Length
    modifies result
    ensures q == q0 + |EscapeByte(a, mask)| && result[..q] == old(result[..q0]) + EscapeByte(a, mask)
  {
    q := q0;
    if !Acceptable(a, mask) {
      result[q] := HEX_ESCAPE;
      result[q + 1] := Hex(a / 16);
      result[q + 2] := Hex(a % 16);
      q := q + 3;
    } else {
      result[q] := a;
      q := q + 1;
    }
  }

  // ---------------------------------------------------------------------------------------------

  // The two halves of a decoded byte, in the arithmetic of a char.
  function High(c: byte): byte {
    AsciiHexToChar(c) * 16 % 256
  }

  function WithLow(high: byte, c: byte): byte {
    (high + AsciiHexToChar(c)) % 256
  }

  // What HTUnEscape makes of s from the read index p on, writing from q on.  An escape cut short at
  // the end of the string is decoded from what there is: of a lone '%' nothing is written, so that
  // the byte at the write index, still one of s, stays.
  function Decoded(s: seq<byte>, p: nat, q: nat): (r: seq<byte>)
    requires q <= p <= |s|
    ensures q + |r| <= |s|
    decreases |s| - p
  {
    if p == |s| then []
    else if s[p] != HEX_ESCAPE then [s[p]] + Decoded(s, p + 1, q + 1)
    else if p + 1 == |s| then [s[q]]
    else if p + 2 == |s| then [High(s[p + 1])]
    else [WithLow(High(s[p + 1]), s[p + 2])] + Decoded(s, p + 3, q + 1)
  }

  // s is the string that a holds, up to its first NUL.
  ghost predicate Holds(a: array<byte>, s: seq<byte>)
    reads a
  {
    NulFree(s) && |s| < a.Length && a[|s|] == 0 && a[..|s|] == s
  }

  // HTUnEscape.  The write index never passes the read index, so the string is not overtaken.
  method UnEscape(str: array<byte>, ghost s: seq<byte>)
    requires Holds(str, s)
    modifies str
    ensures var r := Decoded(s, 0, 0);
      && |r| < str.Length
      && str[..|r| + 1] == r + [0] && str[|r| + 1..] == old(str[|r| + 1..])
  {
    var p, q := 0, 0;
    ghost var done := [];
    while str[p] != 0
      invariant q <= p <= |s| && str[..q] == done
      invariant forall i :: q <= i < str.Length ==> str[i] == old(str[i])
      invariant done + Decoded(s, p, q) == Decoded(s, 0, 0)
      decreases |s| - p
    {
      p := DecodeOne(str, p, q, s);
      AppendFirst(done, str[q], Decoded(s, p, q + 1));
      done := done + [str[q]];
      q := q + 1;
    }
    assert done + [] == done == Decoded(s, 0, 0);
    str[q] := 0;
    assert str[..q] == done && str[..q + 1] == str[..q] + [0];
    assert str[q + 1..] == old(str[q + 1..]);
  }

  lemma AppendFirst(a: seq<byte>, x: byte, b: seq<byte>)
    ensures (a + [x]) + b == a + ([x] + b)
  {
  }

  // One round of the loop, up to the step of the write index.
  method DecodeOne(str: array<byte>, p0: nat, q: nat, ghost s: seq<byte>) returns (p: nat)
    requires q <= p0 < |s| && |s| < str.Length && NulFree(s)
    requires forall i :: q <= i < |s| ==> str[i] == s[i]
    requires str[|s|] == 0
    modifies str
    ensures p0 < p <= |s| && Decoded(s, p0, q) == [str[q]] + Decoded(s, p, q + 1)
    ensures forall i :: 0 <= i < str.Length && i != q ==> str[i] == old(str[i])
  {
    if str[p0] == HEX_ESCAPE {
      p := DecodeEscape(str, p0, q, s);
    } else {
      str[q] := str[p0];
      p := p0 + 1;
    }
  }

  // Lines 112-117, up to the step of the write index.
  method DecodeEscape(str: array<byte>, p0: nat, q: nat, ghost s: seq<byte>) returns (p: nat)
    requires q <= p0 < |s| && |s| < str.Length && NulFree(s) && s[p0] == HEX_ESCAPE
    requires forall i :: q <= i < |s| ==> str[i] == s[i]
    requires str[|s|] == 0
    modifies str
    ensures p0 < p <= |s| && Decoded(s, p0, q) == [str[q]] + Decoded(s, p, q + 1)
    ensures forall i :: 0 <= i < str.Length && i != q ==> str[i] == old(str[i])
  {
    p := p0 + 1;
    if str[p] != 0 {
      str[q] := High(str[p]);
      p := p + 1;
    }
    if str[p] != 0 {
      str[q] := WithLow(str[q], str[p]);
      p := p + 1;
    }
  }

  // ---------------------------------------------------------------------------------------------

  lemma HexDigits(a: byte)
    ensures WithLow(High(Hex(a / 16)), Hex(a % 16)) == a
    ensures Hex(a / 16) != 0 && Hex(a % 16) != 0
  {
    assert forall d :: 0 <= d < 16 ==> AsciiHexToChar(Hex(d)) == d;
  }

  lemma PercentIsEscaped(mask: bv32)
    ensures !Acceptable(HEX_ESCAPE, mask)
  {
  }

  // Unescaping undoes escaping, wherever the escaped string stands.
  lemma {:induction false} DecodeEscaped(e: seq<byte>, p: nat, q: nat, s: seq<byte>, mask: bv32)
    requires q <= p <= |e| && e[p..] == Escaped(s, mask)
    ensures Decoded(e, p, q) == s
    decreases |s|
  {
    if s != [] {
      var piece, rest := EscapeByte(s[0], mask), Escaped(s[1..], mask);
      assert e[p..] == piece + rest;
      DecodePiece(e, p, q, s[0], mask, rest);
      DecodeEscaped(e, p + |piece|, q + 1, s[1..], mask);
    }
  }

  lemma DecodePiece(e: seq<byte>, p: nat, q: nat, a: byte, mask: bv32, rest: seq<byte>)
    requires q <= p <= |e| && e[p..] == EscapeByte(a, mask) + rest
    ensures p + |EscapeByte(a, mask)| <= |e| && e[p + |EscapeByte(a, mask)|..] == rest
    ensures Decoded(e, p, q) == [a] + Decoded(e, p + |EscapeByte(a, mask)|, q + 1)
  {
    var piece := EscapeByte(a, mask);
    assert e[p + |piece|..] == e[p..][|piece|..] == rest;
    assert e[p] == e[p..][0] == piece[0];
    PercentIsEscaped(mask);
    if !Acceptable(a, mask) {
      assert e[p + 1] == e[p..][1] == piece[1];
      assert e[p + 2] == e[p..][2] == piece[2];
      HexDigits(a);
    }
  }

  lemma RoundTrip(s: seq<byte>, mask: bv32)
    ensures Decoded(Escaped(s, mask), 0, 0) == s
  {
    DecodeEscaped(Escaped(s, mask), 0, 0, s, mask);
  }

  // The same on the strings themselves.
  method EscapeAndBack(s: seq<byte>, mask: bv32) returns (str: array<byte>)
    requires NulFree(s)
    ensures Holds(str, s)
  {
    str := Escape(s, mask);
    ghost var e := Escaped(s, mask);
    EscapedIsSafe(s, mask);
    RoundTrip(s, mask);
    assert str[..] == e + [0];
    assert str[..|e|] == e;
    UnEscape(str, e);
    assert str[..|s|] == str[..|s| + 1][..|s|];
  }

  predicate IsUpperHexDigit(c: byte) {
    48 <= c <= 57 || 65 <= c <= 70
  }

  // What is left in an escaped string: bytes the mask accepts, and escapes of two digits.
  ghost predicate Safe(e: seq<byte>, mask: bv32) {
    e == [] ||
    (if e[0] == HEX_ESCAPE then |e| >= 3 && IsUpperHexDigit(e[1]) && IsUpperHexDigit(e[2]) && Safe(e[3..], mask)
     else Acceptable(e[0], mask) && Safe(e[1..], mask))
  }

  lemma {:induction false} EscapedIsSafe(s: seq<byte>, mask: bv32)
    ensures Safe(Escaped(s, mask), mask) && NulFree(Escaped(s, mask))
  {
    if s != [] {
      var piece, rest := EscapeByte(s[0], mask), Escaped(s[1..], mask);
      EscapedIsSafe(s[1..], mask);
      HexDigits(s[0]);
      PercentIsEscaped(mask);
      assert (piece + rest)[|piece|..] == rest;
      assert (piece + rest)[..|piece|] == piece;
    }
  }

  // ---------------------------------------------------------------------------------------------

  // Section 2.1 of RFC 3986: the two digits after a percent sign, of either case, are the byte's number.
  predicate IsHexDigit(c: byte) {
    IsUpperHexDigit(c) || 97 <= c <= 102
  }

  function HexValue(c: byte): (n: nat)
    requires IsHexDigit(c)
    ensures n < 16 && (c == Hex(n) || (n >= 10 && c == Hex(n) + 32))
  {
    if c <= 57 then c - 48 else if c <= 70 then c - 55 else c - 87
  }

  predicate WellFormed(s: seq<byte>) {
    s == [] ||
    (if s[0] == HEX_ESCAPE then |s| >= 3 && IsHexDigit(s[1]) && IsHexDigit(s[2]) && WellFormed(s[3..])
     else WellFormed(s[1..]))
  }

  function PercentDecoded(s: seq<byte>): seq<byte>
    requires WellFormed(s)
  {
    if s == [] then []
    else if s[0] == HEX_ESCAPE then [16 * HexValue(s[1]) + HexValue(s[2])] + PercentDecoded(s[3..])
    else [s[0]] + PercentDecoded(s[1..])
  }

  lemma TwoDigits(h: byte, l: byte)
    requires IsHexDigit(h) && IsHexDigit(l)
    ensures WithLow(High(h), l) == 16 * HexValue(h) + HexValue(l)
  {
    DigitValue(h);
    DigitValue(l);
    assert High(h) == 16 * HexValue(h);
  }

  lemma DigitValue(c: byte)
    requires IsHexDigit(c)
    ensures AsciiHexToChar(c) == HexValue(c)
  {
  }

  lemma {:induction false} DecodesWellFormed(s: seq<byte>, p: nat, q: nat)
    requires q <= p <= |s| && WellFormed(s[p..])
    ensures Decoded(s, p, q) == PercentDecoded(s[p..])
    decreases |s| - p
  {
    if p < |s| {
      if s[p] == HEX_ESCAPE {
        assert s[p..][3..] == s[p + 3..];
        TwoDigits(s[p + 1], s[p + 2]);
        DecodesWellFormed(s, p + 3, q + 1);
      } else {
        assert s[p..][1..] == s[p + 1..];
        DecodesWellFormed(s, p + 1, q + 1);
      }
    }
  }

  // ---------------------------------------------------------------------------------------------

  // Decoding any string whatever, without an index to write at: `left` stands for what a lone '%' at
  // the end becomes.
  function Tolerant(s: seq<byte>, left: byte): seq<byte> {
    if s == [] then []
    else if s[0] != HEX_ESCAPE then [s[0]] + Tolerant(s[1..], left)
    else if |s| == 1 then [left]
    else if |s| == 2 then [High(s[1])]
    else [WithLow(High(s[1]), s[2])] + Tolerant(s[3..], left)
  }

  // The last byte is a '%' that belongs to no escape before it.
  predicate EndsLone(s: seq<byte>) {
    s != [] &&
    (if s[0] != HEX_ESCAPE then EndsLone(s[1..])
     else |s| == 1 || (|s| >= 3 && EndsLone(s[3..])))
  }

  // Where no lone '%' ends the string, the place that is written to does not matter.
  lemma {:induction false} LeavesNothing(s: seq<byte>, p: nat, q: nat, left: byte)
    requires q <= p <= |s| && !EndsLone(s[p..])
    ensures Decoded(s, p, q) == Tolerant(s[p..], left)
    decreases |s| - p
  {
    if p < |s| {
      if s[p] != HEX_ESCAPE {
        assert s[p..][1..] == s[p + 1..];
        LeavesNothing(s, p + 1, q + 1, left);
      } else if p + 2 < |s| {
        assert s[p..][3..] == s[p + 3..];
        LeavesNothing(s, p + 3, q + 1, left);
      }
    }
  }

  // Where one does, it becomes what stands at the place the write index has come to.
  lemma {:induction false} LeavesLast(s: seq<byte>, p: nat, q: nat)
    requires q <= p <= |s| && EndsLone(s[p..])
    ensures Decoded(s, p, q) != [] && Decoded(s, p, q) == Tolerant(s[p..], s[q + |Decoded(s, p, q)| - 1])
    decreases |s| - p
  {
    var t := s[p..];
    if s[p] != HEX_ESCAPE || p + 1 < |s| {
      var n := if s[p] != HEX_ESCAPE then 1 else 3;
      var b := if n == 1 then s[p] else WithLow(High(s[p + 1]), s[p + 2]);
      var rest := Decoded(s, p + n, q + 1);
      assert t[n..] == s[p + n..];
      LeavesLast(s, p + n, q + 1);
      assert Decoded(s, p, q) == [b] + rest;
      assert Tolerant(t, s[q + |rest|]) == [b] + Tolerant(t[n..], s[q + |rest|]);
    }
  }

  // That place is its own if and only if no escape has made room.
  lemma {:induction false} LastPlace(s: seq<byte>, p: nat, q: nat)
    requires q <= p <= |s| && EndsLone(s[p..])
    ensures q + |Decoded(s, p, q)| == |s| <==> q == p && HEX_ESCAPE !in s[p..|s| - 1]
    decreases |s| - p
  {
    if s[p] != HEX_ESCAPE {
      assert s[p..][1..] == s[p + 1..];
      if p + 1 < |s| {
        LastPlace(s, p + 1, q + 1);
        FirstOfSlice(s, p, |s| - 1, HEX_ESCAPE);
      }
    } else if p + 1 < |s| {
      assert s[p..][3..] == s[p + 3..];
      LastPlace(s, p + 3, q + 1);
      FirstOfSlice(s, p, |s| - 1, HEX_ESCAPE);
    }
  }

  lemma FirstOfSlice(s: seq<byte>, p: nat, n: nat, x: byte)
    requires p < n <= |s|
    ensures x in s[p..n] <==> s[p] == x || x in s[p + 1..n]
  {
    assert s[p..n] == [s[p]] + s[p + 1..n];
  }

  lemma {:induction false} LeftShows(s: seq<byte>, x: byte, y: byte)
    requires EndsLone(s)
    ensures Tolerant(s, x) == Tolerant(s, y) <==> x == y
  {
    var t, u := Tolerant(s, x), Tolerant(s, y);
    if s[0] != HEX_ESCAPE {
      LeftShows(s[1..], x, y);
      assert t[1..] == Tolerant(s[1..], x) && u[1..] == Tolerant(s[1..], y);
    } else if |s| > 1 {
      LeftShows(s[3..], x, y);
      assert t[1..] == Tolerant(s[3..], x) && u[1..] == Tolerant(s[3..], y);
    }
  }

  // A lone '%' ends the string, and an escape before it has made room.
  predicate Stale(s: seq<byte>) {
    EndsLone(s) && HEX_ESCAPE in s[..|s| - 1]
  }

  // The last byte of the result comes from a place before the '%' that is being read, whose byte has been
  // decoded already, if and only if a lone '%' ends the string and an escape came before it.  A lone '%'
  // stays what it is otherwise.
  lemma StaleExactly(s: seq<byte>)
    ensures var r := Decoded(s, 0, 0);
      if Stale(s) then
        && 0 < |r| < |s|
        && (forall left :: r == Tolerant(s, left) <==> left == s[|r| - 1])
      else r == Tolerant(s, HEX_ESCAPE)
  {
    assert s[0..] == s && s[0..|s|] == s;
    if EndsLone(s) {
      LeavesLast(s, 0, 0);
      LastPlace(s, 0, 0);
      var r := Decoded(s, 0, 0);
      assert s[0..|s| - 1] == s[..|s| - 1];
      LoneIsLast(s);
      forall left
        ensures r == Tolerant(s, left) <==> left == s[|r| - 1]
      {
        LeftShows(s, left, s[|r| - 1]);
      }
    } else {
      LeavesNothing(s, 0, 0, HEX_ESCAPE);
    }
  }

  lemma {:induction false} LoneIsLast(s: seq<byte>)
    requires EndsLone(s)
    ensures s[|s| - 1] == HEX_ESCAPE
  {
    if s[0] != HEX_ESCAPE {
      LoneIsLast(s[1..]);
    } else if |s| > 1 {
      LoneIsLast(s[3..]);
    }
  }

  // "%41%" becomes "A4", the 4 being left over from the escape.
  lemma StaleByte()
    ensures Stale([37, 52, 49, 37]) && Decoded([37, 52, 49, 37], 0, 0) == [65, 52]
  {
    var s: seq<byte> := [37, 52, 49, 37];
    assert s[3..] == [37] && s[..3][0] == 37;
    assert EndsLone(s[3..]);
    assert Decoded(s, 3, 1) == [52];
  }
}

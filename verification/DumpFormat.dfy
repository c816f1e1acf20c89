/**
  The bytevalue dump format: mdb_dump prints every key and data item as a line of hex digits after
  a blank, mdb_load reads the lines back, growing its buffer as needed and decoding it in place.
 */
module DumpFormat {
  import opened Limits

  const BLANK: byte := 32
  const NEWLINE: byte := 10

  // ---------------------------------------------------------------- printing

  function HexDigit(d: int): byte
    requires 0 <= d < 16
  {
    if d < 10 then (48 + d) as byte else (87 + d) as byte
  }

  function Hex(c: byte): (s: seq<byte>)
    ensures |s| == 2
  {
    [HexDigit(c as int / 16), HexDigit(c as int % 16)]
  }

  function HexAll(v: seq<byte>): (s: seq<byte>)
    ensures |s| == 2 * |v|
  {
    if v == [] then [] else HexAll(v[..|v| - 1]) + Hex(v[|v| - 1])
  }

  /** The line that stands for a byte string. */
  function Line(v: seq<byte>): seq<byte> { [BLANK] + HexAll(v) + [NEWLINE] }

  /** byte() of mdb_dump. */
  method PrintByte(v: seq<byte>) returns (out: seq<byte>)
    ensures out == Line(v)
    ensures out[0] == 32 && out[|out| - 1] == 10 && |out| == 2 * |v| + 2
  {
    out := [BLANK];
    var c := 0;
    while c < |v|
      invariant 0 <= c <= |v| && out == [BLANK] + HexAll(v[..c])
    {
      assert v[..c + 1][..c] == v[..c];
      out := out + [HexDigit(v[c] as int / 16)];
      out := out + [HexDigit(v[c] as int % 16)];
      c := c + 1;
    }
    assert v[..c] == v;
    out := out + [NEWLINE];
  }

  // ---------------------------------------------------------------- decoding

  predicate IsXdigit(c: byte) { 48 <= c <= 57 || 65 <= c <= 70 || 97 <= c <= 102 }

  /** c & 0x4f: bit 6 and the low nibble. */
  function Mask(c: byte): int { (if (c as int / 64) % 2 == 1 then 64 else 0) + c as int % 16 }

  function Nibble(c: byte): (x: int)
    ensures IsXdigit(c) ==> 0 <= x < 16
  {
    if Mask(c) >= 64 then Mask(c) - 55 else Mask(c)
  }

  function Unhex(a: byte, b: byte): byte
    requires IsXdigit(a) && IsXdigit(b)
  {
    (16 * Nibble(a) + Nibble(b)) as byte
  }

  /** A-F as a-f. */
  function Lower(c: byte): byte { if 65 <= c <= 70 then c + 32 else c }

  /** unhex undoes hex, and hex undoes unhex up to the case of letters. */
  lemma UnhexHex(c: byte)
    ensures IsXdigit(Hex(c)[0]) && IsXdigit(Hex(c)[1]) && Unhex(Hex(c)[0], Hex(c)[1]) == c
  {
  }

  /** The digits 0-9 and a-f, the high one first: printed bytes sort as the bytes themselves. */
  lemma HexSorts(c: byte, d: byte)
    ensures forall i :: 0 <= i < 2 ==> 48 <= Hex(c)[i] <= 57 || 97 <= Hex(c)[i] <= 102
    ensures c < d <==> Hex(c)[0] < Hex(d)[0] || (Hex(c)[0] == Hex(d)[0] && Hex(c)[1] < Hex(d)[1])
  {
  }

  lemma HexUnhex(a: byte, b: byte)
    requires IsXdigit(a) && IsXdigit(b)
    ensures Hex(Unhex(a, b)) == [Lower(a), Lower(b)]
  {
    assert HexDigit(Nibble(a)) == Lower(a) && HexDigit(Nibble(b)) == Lower(b);
  }

  predicate AllHex(s: seq<byte>) { forall i :: 0 <= i < |s| ==> IsXdigit(s[i]) }

  /** What an even-length run of hex digits stands for. */
  function Decoded(s: seq<byte>): (v: seq<byte>)
    requires |s| % 2 == 0 && AllHex(s)
    ensures |v| == |s| / 2
  {
    if s == [] then [] else Decoded(s[..|s| - 2]) + [Unhex(s[|s| - 2], s[|s| - 1])]
  }

  lemma {:induction false} HexIsHex(v: seq<byte>)
    ensures AllHex(HexAll(v)) && Decoded(HexAll(v)) == v
  {
    if v != [] {
      var n := |v| - 1;
      HexIsHex(v[..n]);
      UnhexHex(v[n]);
      var s := HexAll(v);
      assert s[..|s| - 2] == HexAll(v[..n]) && s[|s| - 2] == Hex(v[n])[0] && s[|s| - 1] == Hex(v[n])[1];
      assert v == v[..n] + [v[n]];
    }
  }

  /** Two lines stand for the same bytes exactly when they differ only in the case of letters. */
  lemma {:induction false} DecodedHex(s: seq<byte>)
    requires |s| % 2 == 0 && AllHex(s)
    ensures HexAll(Decoded(s)) == seq(|s|, i requires 0 <= i < |s| => Lower(s[i]))
  {
    hide Unhex, Hex, Lower;
    if s != [] {
      var n := |s| - 2;
      DecodedHex(s[..n]);
      HexUnhex(s[n], s[n + 1]);
      var v := Decoded(s);
      assert v[..|v| - 1] == Decoded(s[..n]);
    }
  }

  lemma DecodedStep(s: seq<byte>, k: nat)
    requires k % 2 == 0 && k + 2 <= |s| && AllHex(s[..k]) && IsXdigit(s[k]) && IsXdigit(s[k + 1])
    ensures AllHex(s[..k + 2]) && Decoded(s[..k + 2]) == Decoded(s[..k]) + [Unhex(s[k], s[k + 1])]
  {
    var t := s[..k + 2];
    assert t[..|t| - 2] == s[..k];
    forall i | 0 <= i < |t| ensures IsXdigit(t[i]) { if i < k { assert t[i] == s[..k][i]; } }
  }

  /** The bytevalue branch of readline: decode the first len bytes of the buffer in place.  Odd
      lengths and anything but hex digits are rejected. */
  method DecodeInPlace(buf: array<byte>, len: nat) returns (ok: bool, size: nat)
    requires len <= buf.Length
    modifies buf
    ensures ok <==> len % 2 == 0 && AllHex(old(buf[..len]))
    ensures ok ==> size == len / 2 && buf[..size] == Decoded(old(buf[..len]))
  {
    hide Unhex, Decoded;
    ghost var s := buf[..len];
    size := 0;
    if len % 2 == 1 { return false, 0; }
    var c1, c2 := 0, 0;
    DecodedNil(s[..0]);
    while c2 < len
      invariant 0 <= c1 <= len && c2 == 2 * c1 <= len
      invariant forall p :: c2 <= p < len ==> buf[p] == s[p]
      invariant AllHex(s[..c2]) && buf[..c1] == Decoded(s[..c2])
    {
      if !IsXdigit(buf[c2]) || !IsXdigit(buf[c2 + 1]) {
        assert !IsXdigit(s[c2]) || !IsXdigit(s[c2 + 1]);
        return false, 0;
      }
      DecodedStep(s, c2);
      ghost var done := buf[..c1];
      buf[c1] := Unhex(buf[c2], buf[c2 + 1]);
      assert buf[..c1 + 1] == done + [buf[c1]];
      c1, c2 := c1 + 1, c2 + 2;
    }
    assert s[..len] == s;
    return true, c1;
  }

  lemma DecodedNil(s: seq<byte>)
    requires s == []
    ensures Decoded(s) == []
  {
  }

  // ---------------------------------------------------------------- reading a line

  /** fgets: how many bytes it reads, at most n - 1 and stopping after a newline. */
  function Fgets(input: seq<byte>, pos: nat, n: nat): (k: nat)
    requires pos <= |input|
    ensures pos + k <= |input| && (k < n || k == 0)
    decreases n
  {
    if n <= 1 || pos == |input| then 0
    else if input[pos] == NEWLINE then 1
    else 1 + Fgets(input, pos + 1, n - 1)
  }

  /** The position after the first newline from pos on. */
  function LineEnd(input: seq<byte>, pos: nat): (e: nat)
    requires pos <= |input|
    ensures pos <= e <= |input|
    decreases |input| - pos
  {
    if pos == |input| then pos else if input[pos] == NEWLINE then pos + 1 else LineEnd(input, pos + 1)
  }

  /** A newline stands just before position e, and the line began before that. */
  predicate Ended(input: seq<byte>, pos: nat, e: nat) { pos < e <= |input| && input[e - 1] == NEWLINE }

  /** fgets stops within the line, or at its end. */
  lemma {:induction false} FgetsLine(input: seq<byte>, pos: nat, n: nat)
    requires pos <= |input| && n > 1
    ensures var e := pos + Fgets(input, pos, n);
      && (if Ended(input, pos, e) then e == LineEnd(input, pos) else LineEnd(input, pos) == LineEnd(input, e))
      && (e == pos <==> pos == |input|)
    decreases n
  {
    if pos < |input| && input[pos] != NEWLINE && n > 2 { FgetsLine(input, pos + 1, n - 1); }
  }

  /** The loop that doubles the buffer until the whole line is in it; mvSize is the buffer's size. */
  method GetLine(input: seq<byte>, start: nat, mvSize0: nat) returns (ok: bool, e: nat, mvSize: nat)
    requires start <= |input| && mvSize0 > 1
    ensures ok <==> Ended(input, start, LineEnd(input, start))
    ensures ok ==> e == LineEnd(input, start) && e - start < mvSize
    ensures mvSize > 1
  {
    hide Fgets;
    mvSize := mvSize0;
    e := start + Fgets(input, start, mvSize);
    FgetsLine(input, start, mvSize);
    FgetsBound(input, start, mvSize);
    if e == start {
      return false, e, mvSize;
    }
    while input[e - 1] != NEWLINE
      invariant start < e <= |input| && 1 < mvSize && e - start < mvSize
      invariant if Ended(input, start, e) then e == LineEnd(input, start) else LineEnd(input, start) == LineEnd(input, e)
      decreases |input| - e
    {
      var more := Fgets(input, e, mvSize + 1);
      FgetsLine(input, e, mvSize + 1);
      FgetsBound(input, e, mvSize + 1);
      if more == 0 {
        return false, e, mvSize;
      }
      e := e + more;
      mvSize := mvSize * 2;
    }
    ok := true;
  }

  lemma FgetsBound(input: seq<byte>, pos: nat, n: nat)
    requires pos <= |input| && n > 0
    ensures pos + Fgets(input, pos, n) <= |input| && Fgets(input, pos, n) < n
  {
  }

  /** What readline makes of the input at pos: a blank, then an even number of hex digits. */
  predicate GoodLine(input: seq<byte>, pos: nat) {
    && pos < |input| && input[pos] == BLANK
    && var e := LineEnd(input, pos + 1);
    && Ended(input, pos + 1, e)
    && (e - 1 - (pos + 1)) % 2 == 0 && AllHex(input[pos + 1..e - 1])
  }

  /** readline of mdb_load on bytevalue input. */
  method ReadLine(input: seq<byte>, pos: nat, mvSize0: nat) returns (ok: bool, out: seq<byte>, next: nat, mvSize: nat)
    requires pos <= |input| && mvSize0 > 1
    ensures ok <==> GoodLine(input, pos)
    ensures ok ==> next == LineEnd(input, pos + 1) && out == Decoded(input[pos + 1..next - 1])
    ensures pos <= next <= |input| && mvSize > 1
  {
    out, next, mvSize := [], pos, mvSize0;
    if pos == |input| { return false, out, next, mvSize; }
    var c := input[pos];
    if c != BLANK { return false, out, next, mvSize; }
    var e;
    ok, e, mvSize := GetLine(input, pos + 1, mvSize);
    if !ok { return; }
    var len := e - 1 - (pos + 1);
    var buf := new byte[len](i requires 0 <= i < len => input[pos + 1 + i]);
    assert buf[..len] == input[pos + 1..e - 1];
    var size;
    ok, size := DecodeInPlace(buf, len);
    if ok { out, next := buf[..size], e; }
  }

  // ---------------------------------------------------------------- round trip

  lemma {:induction false} LineEndOf(input: seq<byte>, pos: nat, s: seq<byte>)
    requires pos + |s| < |input| && input[pos..pos + |s|] == s && AllHex(s) && input[pos + |s|] == NEWLINE
    ensures LineEnd(input, pos) == pos + |s| + 1
    decreases |s|
  {
    if s != [] {
      assert input[pos] == s[0] && IsXdigit(s[0]);
      assert input[pos + 1..pos + 1 + |s[1..]|] == s[1..];
      LineEndOf(input, pos + 1, s[1..]);
    }
  }

  lemma LinePlaces(before: seq<byte>, s: seq<byte>, after: seq<byte>)
    ensures var input, pos := before + ([BLANK] + s + [NEWLINE]) + after, |before|;
      && input[pos] == BLANK && input[pos + 1..pos + 1 + |s|] == s && input[pos + 1 + |s|] == NEWLINE
  {
    var input, pos := before + ([BLANK] + s + [NEWLINE]) + after, |before|;
    forall i | 0 <= i < |s| ensures input[pos + 1..pos + 1 + |s|][i] == s[i] { assert input[pos + 1 + i] == s[i]; }
  }

  /** Whatever follows, the line printed for v is read back as v, and nothing more is consumed. */
  lemma PrintedLineReads(before: seq<byte>, v: seq<byte>, after: seq<byte>)
    ensures var input, pos := before + Line(v) + after, |before|;
      && GoodLine(input, pos) && LineEnd(input, pos + 1) == pos + |Line(v)|
      && Decoded(input[pos + 1..LineEnd(input, pos + 1) - 1]) == v
  {
    hide Decoded, AllHex, LineEnd;
    var input, pos, s := before + Line(v) + after, |before|, HexAll(v);
    HexIsHex(v);
    LinePlaces(before, s, after);
    LineEndOf(input, pos + 1, s);
  }

  /** All lines of a dump. */
  function Dump(vs: seq<seq<byte>>): seq<byte> {
    if vs == [] then [] else Dump(vs[..|vs| - 1]) + Line(vs[|vs| - 1])
  }

  lemma {:induction false} DumpPrefix(vs: seq<seq<byte>>, k: nat) returns (rest: seq<byte>)
    requires k < |vs|
    ensures Dump(vs) == Dump(vs[..k]) + Line(vs[k]) + rest
    decreases |vs|
  {
    var n := |vs| - 1;
    if k == n {
      rest := [];
    } else {
      var r := DumpPrefix(vs[..n], k);
      assert vs[..n][..k] == vs[..k];
      rest := r + Line(vs[n]);
    }
  }

  /** Reading a dump back line by line gives the byte strings that were printed. */
  method Load(input: seq<byte>, ghost vs: seq<seq<byte>>) returns (out: seq<seq<byte>>)
    requires input == Dump(vs)
    ensures out == vs
  {
    hide Line, Decoded, GoodLine;
    out := [];
    var pos, mvSize := 0, 4096;
    assert vs[..0] == [];
    while pos < |input|
      invariant pos <= |input| && mvSize > 1 && |out| <= |vs| && out == vs[..|out|] && pos == |Dump(vs[..|out|])|
      invariant |out| == |vs| ==> pos == |input|
      decreases |input| - pos
    {
      ghost var k := |out|;
      ghost var rest := DumpPrefix(vs, k);
      PrintedLineReads(Dump(vs[..k]), vs[k], rest);
      LineNonempty(vs[k]);
      var ok, v, next;
      ok, v, next, mvSize := ReadLine(input, pos, mvSize);
      assert vs[..k + 1][..k] == vs[..k];
      out := out + [v];
      pos := next;
      if |out| == |vs| { assert vs[..|out|] == vs; }
    }
    AllRead(vs, |out|);
  }

  lemma LineNonempty(v: seq<byte>)
    ensures |Line(v)| >= 2
  {
  }

  lemma AllRead(vs: seq<seq<byte>>, k: nat)
    requires k <= |vs| && |Dump(vs[..k])| == |Dump(vs)|
    ensures k == |vs|
  {
    if k < |vs| {
      var rest := DumpPrefix(vs, k);
      LineNonempty(vs[k]);
    }
  }
}

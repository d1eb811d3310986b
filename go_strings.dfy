/** Byte strings as Go sees them, and the two pieces of Go's library behaviour the
    runner relies on: converting a byte to a one-rune string, and strings.TrimSpace. */
module GoStrings {

  /** A Go `byte`; a Go `string` is a sequence of these. */
  newtype byte = x: int | 0 <= x < 256

  predicate IsAscii(s: seq<byte>) {
    forall k :: 0 <= k < |s| ==> s[k] < 0x80
  }

  /** Go's `string(c)` for a byte `c`: the byte is taken as the rune with code point `c` and
      UTF-8 encoded, so a byte of 0x80 or above becomes two bytes. */
  function RuneString(c: byte): (r: seq<byte>)
    ensures c < 0x80 ==> r == [c]
    ensures c >= 0x80 ==> |r| == 2 && 0xC2 <= r[0] <= 0xC3 && 0x80 <= r[1] <= 0xBF
    ensures c >= 0x80 ==> (r[0] as int - 0xC0) * 64 + (r[1] as int - 0x80) == c as int
  {
    if c < 0x80 then [c]
    else if c < 0xC0 then [0xC2, c]
    else [0xC3, c - 0x40]
  }

  /** The bytes appended by `current += string(c)` for each byte of `s` in turn. */
  function Runes(s: seq<byte>): seq<byte> {
    if s == [] then [] else RuneString(s[0]) + Runes(s[1..])
  }

  lemma {:induction false} RunesAppend(a: seq<byte>, b: seq<byte>)
    ensures Runes(a + b) == Runes(a) + Runes(b)
  {
    if a != [] {
      assert (a + b)[0] == a[0];
      assert (a + b)[1..] == a[1..] + b;
      RunesAppend(a[1..], b);
    } else {
      assert a + b == b;
    }
  }

  /** On ASCII text the conversion is the identity. */
  lemma {:induction false} RunesOfAscii(s: seq<byte>)
    requires IsAscii(s)
    ensures Runes(s) == s
  {
    if s != [] {
      assert IsAscii(s[1..]) by {
        forall k | 0 <= k < |s[1..]| ensures s[1..][k] < 0x80 { assert s[1..][k] == s[k + 1]; }
      }
      RunesOfAscii(s[1..]);
      assert [s[0]] + s[1..] == s;
    }
  }

  /** The ASCII white space strings.TrimSpace removes: \t \n \v \f \r and space. */
  predicate IsAsciiSpace(b: byte) {
    b == 9 || b == 10 || b == 11 || b == 12 || b == 13 || b == 32
  }

  predicate AllSpace(s: seq<byte>) {
    forall k :: 0 <= k < |s| ==> IsAsciiSpace(s[k])
  }

  function TrimLeft(s: seq<byte>): (r: seq<byte>)
    ensures |r| <= |s| && r == s[|s| - |r|..]
    ensures AllSpace(s[..|s| - |r|])
    ensures r == [] || !IsAsciiSpace(r[0])
  {
    if s != [] && IsAsciiSpace(s[0]) then
      var r := TrimLeft(s[1..]);
      assert s[..|s| - |r|] == [s[0]] + s[1..][..|s| - 1 - |r|];
      r
    else s
  }

  function TrimRight(s: seq<byte>): (r: seq<byte>)
    ensures |r| <= |s| && r == s[..|r|]
    ensures AllSpace(s[|r|..])
    ensures r == [] || !IsAsciiSpace(r[|r| - 1])
  {
    if s != [] && IsAsciiSpace(s[|s| - 1]) then
      var r := TrimRight(s[..|s| - 1]);
      assert s[|r|..] == s[..|s| - 1][|r|..] + [s[|s| - 1]];
      r
    else s
  }

  /** strings.TrimSpace restricted to ASCII white space: the result is the slice of `s`
      left after removing every leading and trailing white-space byte. */
  function TrimSpace(s: seq<byte>): (r: seq<byte>)
    ensures exists i :: 0 <= i <= |s| - |r| && r == s[i..i + |r|]
                        && AllSpace(s[..i]) && AllSpace(s[i + |r|..])
    ensures r == [] || (!IsAsciiSpace(r[0]) && !IsAsciiSpace(r[|r| - 1]))
  {
    var t := TrimLeft(s);
    var r := TrimRight(t);
    SuffixSlices(s, |s| - |t|, |r|);
    r
  }

  lemma SuffixSlices(s: seq<byte>, i: nat, n: nat)
    requires i + n <= |s|
    ensures s[i..][..n] == s[i..i + n] && s[i..][n..] == s[i + n..]
  {
  }

  /** Trimming twice removes nothing more. */
  lemma TrimSpaceIdempotent(s: seq<byte>)
    ensures TrimSpace(TrimSpace(s)) == TrimSpace(s)
  {
    var r := TrimSpace(s);
    assert TrimLeft(r) == r;
    assert TrimRight(r) == r;
  }
}

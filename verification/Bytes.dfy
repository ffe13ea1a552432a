/** Octets, fixed-width integers and the library calls the program leans on. */
module Bytes {
  datatype Option<+T> = None | Some(value: T)

  type byte = b: int | 0 <= b < 0x100
  type bytes = seq<byte>
  type uint16 = n: int | 0 <= n < 0x1_0000
  type uint32 = n: int | 0 <= n < 0x1_0000_0000

  const UINT16_MAX := 0xffff
  const UINT32_MAX := 0xffff_ffff

  function Min(a: int, b: int): int {
    if a < b then a else b
  }

  function Max(a: int, b: int): int {
    if a < b then b else a
  }

  lemma {:induction false} SubsetIsSmaller<T>(a: set<T>, b: set<T>)
    requires a <= b
    ensures |a| <= |b|
  {
    assert b == a + (b - a);
  }

  lemma {:induction false} Concat(a: bytes, b: bytes, c: bytes)
    ensures a + b + c == a + (b + c)
  {
  }

  lemma {:induction false} SliceOfSlice(s: bytes, p: nat, n: nat, a: nat, b: nat)
    requires a <= b <= n && p + n <= |s|
    ensures s[p..p + n][a..b] == s[p + a..p + b]
  {
    var inner, direct := s[p..p + n][a..b], s[p + a..p + b];
    assert forall i :: 0 <= i < |inner| ==> inner[i] == direct[i];
  }

  lemma {:induction false} SliceOfPrefix(a: bytes, b: bytes, out: bytes)
    requires a + b <= out
    ensures out[|a|..|a| + |b|] == b
  {
    assert out[|a|..|a| + |b|] == (a + b)[|a|..|a| + |b|];
  }

  // Network byte order

  function U16(v: uint16): (b: bytes)
    ensures |b| == 2
  {
    [v / 0x100, v % 0x100]
  }

  function U32(v: uint32): (b: bytes)
    ensures |b| == 4
  {
    U16(v / 0x1_0000) + U16(v % 0x1_0000)
  }

  function ReadU16(b: bytes, p: nat): uint16
    requires p + 2 <= |b|
  {
    (b[p] as int) * 0x100 + (b[p + 1] as int)
  }

  function ReadU32(b: bytes, p: nat): uint32
    requires p + 4 <= |b|
  {
    ReadU16(b, p) as int * 0x1_0000 + ReadU16(b, p + 2) as int
  }

  lemma {:induction false} ReadBackU16(b: bytes, p: nat, v: uint16)
    requires p + 2 <= |b| && b[p..p + 2] == U16(v)
    ensures ReadU16(b, p) == v
  {
    assert b[p] == b[p..p + 2][0] && b[p + 1] == b[p..p + 2][1];
  }

  lemma {:induction false} ReadBackU32(b: bytes, p: nat, v: uint32)
    requires p + 4 <= |b| && b[p..p + 4] == U32(v)
    ensures ReadU32(b, p) == v
  {
    var s := b[p..p + 4];
    assert s[0..2] == U16(v / 0x1_0000) && s[2..4] == U16(v % 0x1_0000);
    SliceOfSlice(b, p, 4, 0, 2);
    SliceOfSlice(b, p, 4, 2, 4);
    ReadBackU16(b, p, v / 0x1_0000);
    ReadBackU16(b, p + 2, v % 0x1_0000);
  }

  // Character case, as std::tolower and strcasecmp see it in the "C" locale

  function LowerByte(c: byte): byte {
    if 65 <= c <= 90 then c + 32 else c
  }

  function Lower(s: bytes): (r: bytes)
    ensures |r| == |s|
    ensures forall i :: 0 <= i < |s| ==> r[i] == LowerByte(s[i])
  {
    seq(|s|, i requires 0 <= i < |s| => LowerByte(s[i]))
  }

  /** The part of a string a C function sees: everything before the first NUL. */
  function CString(s: bytes): (r: bytes)
    ensures r <= s && 0 !in r
    ensures 0 !in s ==> r == s
  {
    if s == [] || s[0] == 0 then [] else
      var rest := CString(s[1..]);
      assert s == [s[0]] + s[1..];
      [s[0]] + rest
  }

  predicate SameIgnoringCase(a: bytes, b: bytes) {
    Lower(CString(a)) == Lower(CString(b))
  }
}

/** What makes two questions the same question, and how a question is disguised on its way upstream. */
module CoalescingKeys {
  import opened Bytes
  import opened Messages

  // ----- Coalescing keys -----

  /** std::to_string of a 16-bit number. */
  function Decimal(n: nat): (s: bytes)
    ensures |s| > 0 && forall i :: 0 <= i < |s| ==> 48 <= s[i] <= 57
  {
    if n < 10 then [48 + n] else Decimal(n / 10) + [48 + n % 10]
  }

  const SLASH: byte := 47

  /** Questions that may share one upstream transaction have the same key. */
  function PendingKey(q: Question): bytes {
    Lower(q.name) + [0] + (Decimal(q.typ) + [SLASH] + Decimal(q.clas))
  }

  function LastNul(s: bytes): int {
    if s == [] then -1 else if s[|s| - 1] == 0 then |s| - 1 else LastNul(s[..|s| - 1])
  }

  lemma {:induction false} LastNulIs(a: bytes, b: bytes)
    requires 0 !in b
    ensures LastNul(a + [0] + b) == |a|
    decreases |b|
  {
    var s := a + [0] + b;
    if b != [] {
      assert s[|s| - 1] == b[|b| - 1];
      assert s[..|s| - 1] == a + [0] + b[..|b| - 1];
      LastNulIs(a, b[..|b| - 1]);
    }
  }

  lemma {:induction false} DecimalInjective(m: nat, n: nat)
    requires Decimal(m) == Decimal(n)
    ensures m == n
  {
    if m >= 10 && n >= 10 {
      assert Decimal(m)[..|Decimal(m)| - 1] == Decimal(m / 10);
      assert Decimal(n)[..|Decimal(n)| - 1] == Decimal(n / 10);
      assert Decimal(m)[|Decimal(m)| - 1] == 48 + m % 10;
      assert Decimal(n)[|Decimal(n)| - 1] == 48 + n % 10;
      DecimalInjective(m / 10, n / 10);
    } else if m < 10 && n < 10 {
      assert Decimal(m)[0] == Decimal(n)[0];
    }
  }

  lemma {:induction false} SplitAtSlash(a: bytes, b: bytes, c: bytes, d: bytes)
    requires SLASH !in a && SLASH !in c
    requires a + [SLASH] + b == c + [SLASH] + d
    ensures a == c && b == d
  {
    var s, t := a + [SLASH] + b, c + [SLASH] + d;
    assert s[|a|] == SLASH && t[|c|] == SLASH;
    assert |a| == |c| by {
      if |a| < |c| { assert false; }
      if |c| < |a| { assert false; }
    }
    assert s[..|a|] == a && t[..|c|] == c;
    assert s[|a| + 1..] == b && t[|c| + 1..] == d;
  }

  /** Two questions share a key exactly when they agree up to case, with the same type and class. */
  lemma {:induction false} PendingKeyInjective(p: Question, q: Question)
    ensures PendingKey(p) == PendingKey(q) <==> Lower(p.name) == Lower(q.name) && p.typ == q.typ && p.clas == q.clas
  {
    if PendingKey(p) == PendingKey(q) {
      var s := PendingKey(p);
      var a, b := Decimal(p.typ) + [SLASH] + Decimal(p.clas), Decimal(q.typ) + [SLASH] + Decimal(q.clas);
      LastNulIs(Lower(p.name), a);
      LastNulIs(Lower(q.name), b);
      var n := LastNul(s);
      assert s[..n] == Lower(p.name) && s[n + 1..] == a;
      assert s[..n] == Lower(q.name) && s[n + 1..] == b;
      SplitAtSlash(Decimal(p.typ), Decimal(p.clas), Decimal(q.typ), Decimal(q.clas));
      DecimalInjective(p.typ, q.typ);
      DecimalInjective(p.clas, q.clas);
    }
  }

  // ----- Case randomization -----

  function FlipCase(c: byte): byte {
    if 65 <= c <= 90 then c + 32 else if 97 <= c <= 122 then c - 32 else c
  }

  /** DNS 0x20: flips the letters picked by the random bits. */
  function RandomizeCase(name: bytes, flips: seq<bool>): (r: bytes)
    ensures |r| == |name|
  {
    seq(|name|, i requires 0 <= i < |name| => if i < |flips| && flips[i] then FlipCase(name[i]) else name[i])
  }

  lemma {:induction false} RandomizedNameIsSameName(name: bytes, flips: seq<bool>)
    ensures Lower(RandomizeCase(name, flips)) == Lower(name)
  {
  }

  /** And every way of spelling a name can come of it, but no other name. */
  lemma {:induction false} SpellingsExactly(name: bytes, other: bytes)
    ensures Lower(other) == Lower(name) <==> exists flips: seq<bool> :: RandomizeCase(name, flips) == other
  {
    if Lower(other) == Lower(name) {
      var flips := seq(|name|, i => 0 <= i < |name| && i < |other| && name[i] != other[i]);
      forall i | 0 <= i < |name| ensures RandomizeCase(name, flips)[i] == other[i] {
        assert LowerByte(name[i]) == Lower(name)[i] == LowerByte(other[i]);
      }
      assert RandomizeCase(name, flips) == other;
    }
    forall flips: seq<bool> | RandomizeCase(name, flips) == other ensures Lower(other) == Lower(name) {
      RandomizedNameIsSameName(name, flips);
    }
  }
}

/** Why looking a name up by key finds the rules that match it, and which rules it misses. */
module FilterKeys {
  import opened Bytes
  import opened Names
  import opened FilterRules

  // ----- Dots -----

  lemma {:induction false} LastDotIs(s: bytes, d: int)
    requires -1 <= d < |s| && (d >= 0 ==> s[d] == DOT) && forall i :: d < i < |s| ==> s[i] != DOT
    ensures LastDot(s) == d
  {
  }

  lemma {:induction false} IndexBehind(q: bytes, s: bytes, name: bytes)
    requires name == q + s
    ensures forall i :: 0 <= i < |s| ==> name[|q| + i] == s[i]
    ensures forall i :: 0 <= i < |q| ==> name[i] == q[i]
    ensures forall a, b :: 0 <= a <= b <= |s| ==> name[|q| + a..|q| + b] == s[a..b]
    ensures forall b :: 0 <= b <= |s| ==> name[..|q| + b] == q + s[..b]
  {
  }

  /** Behind a dot, what is in front of it does not matter to the last dot. */
  lemma {:induction false} LastDotBehind(p: bytes, s: bytes, name: bytes)
    requires name == p + [DOT] + s
    ensures LastDot(name) == |p| + 1 + LastDot(s)
  {
    hide LastDot;
    IndexBehind(p + [DOT], s, name);
    var d := LastDot(s);
    forall i | |p| + 1 + d < i < |name| ensures name[i] != DOT {
      assert name[i] == s[i - |p| - 1];
    }
    assert d >= 0 ==> name[|p| + 1 + d] == s[d];
    assert d == -1 ==> name[|p|] == (p + [DOT])[|p|];
    LastDotIs(name, |p| + 1 + d);
  }

  lemma {:induction false} LastTwoAre(name: bytes, d: nat, e: int)
    requires LastDot(name) == d && LastDot(name[..d]) == e
    ensures LastTwoLabels(name) == if d == |name| - 1 then name[e + 1..d] else name[e + 1..|name|]
  {
  }

  lemma {:induction false} PrefixBehind(q: bytes, s: bytes, name: bytes, d: nat)
    requires name == q + s && d <= |s|
    ensures name[..|q| + d] == q + s[..d]
  {
  }

  lemma {:induction false} SliceBehind(q: bytes, s: bytes, name: bytes, a: nat, b: nat)
    requires name == q + s && a <= b <= |s|
    ensures name[|q| + a..|q| + b] == s[a..b]
  {
  }

  /** A dotted name has the same last two labels as anything it is the end of, on a label boundary. */
  lemma {:induction false} SameLastTwo(p: bytes, s: bytes, name: bytes)
    requires DOT in s && name == p + [DOT] + s
    ensures LastTwoLabels(name) == LastTwoLabels(s)
  {
    hide LastDot, LastTwoLabels;
    var q, d := p + [DOT], LastDot(s);
    LastDotBehind(p, s, name);
    PrefixBehind(q, s, name, d);
    var e := LastDot(s[..d]);
    LastDotBehind(p, s[..d], name[..|q| + d]);
    LastTwoAre(s, d, e);
    LastTwoAre(name, |q| + d, |q| + e);
    SliceBehind(q, s, name, e + 1, d);
    SliceBehind(q, s, name, e + 1, |s|);
  }

  lemma {:induction false} SameKey(p: bytes, s: bytes, name: bytes)
    requires DOT in s && name == p + [DOT] + s
    ensures SuffixKey(name) == SuffixKey(s)
  {
    hide LastTwoLabels;
    SameLastTwo(p, s, name);
  }

  lemma {:induction false} SplitMatch(rule: bytes, name: bytes)
    requires MatchesSuffix(rule, name) && name != rule
    ensures name == name[..|name| - |rule| - 1] + [DOT] + rule
  {
    assert name == name[..|name| - |rule| - 1] + [name[|name| - |rule| - 1]] + name[|name| - |rule|..];
  }

  lemma {:induction false} JoinMatches(p: bytes, rule: bytes)
    ensures MatchesSuffix(rule, p + [DOT] + rule)
  {
    var name := p + [DOT] + rule;
    assert name[|name| - |rule|..] == rule;
  }

  lemma {:induction false} DottedRulesShareKey(rule: bytes, name: bytes)
    requires MatchesSuffix(rule, name) && DOT in rule
    ensures SuffixKey(name) == SuffixKey(rule)
  {
    if name != rule {
      SplitMatch(rule, name);
      SameKey(name[..|name| - |rule| - 1], rule, name);
    }
  }

  /** The last two labels of a name that ends in a single label. */
  lemma {:induction false} CutAtDot(p: bytes, s: bytes, name: bytes, a: nat)
    requires name == p + [DOT] + s && a <= |p|
    ensures name[..|p|] == p && name[a..|name|] == p[a..] + [DOT] + s
  {
  }

  lemma {:induction false} NoLastDot(s: bytes)
    requires DOT !in s
    ensures LastDot(s) == -1
  {
  }

  lemma {:induction false} LastTwoOfSingle(p: bytes, s: bytes, name: bytes)
    requires DOT !in s && s != [] && name == p + [DOT] + s
    ensures LastTwoLabels(name) == p[LastDot(p) + 1..] + [DOT] + s
  {
    hide LastDot, LastTwoLabels;
    LastDotBehind(p, s, name);
    NoLastDot(s);
    var e := LastDot(p);
    CutAtDot(p, s, name, e + 1);
    LastTwoAre(name, |p|, e);
  }

  predicate Known(rule: bytes) {
    rule == LAN || rule == LOCAL
  }

  lemma {:induction false} KeyOfSingle(p: bytes, s: bytes, name: bytes)
    requires DOT !in s && s != [] && name == p + [DOT] + s
    ensures SuffixKey(name) == if Known(s) then s else p[LastDot(p) + 1..] + [DOT] + s
  {
    hide EndsWith, LastTwoLabels, LastDot;
    LastTwoOfSingle(p, s, name);
    KnownKey(p[LastDot(p) + 1..], s);
  }

  lemma {:induction false} KnownKey(label_: bytes, s: bytes)
    requires DOT !in s && s != []
    ensures EndsWith(label_ + [DOT] + s, [DOT] + LAN) <==> s == LAN
    ensures EndsWith(label_ + [DOT] + s, [DOT] + LOCAL) <==> s == LOCAL
  {
    EndsWithLabel(label_, s, LAN);
    EndsWithLabel(label_, s, LOCAL);
  }

  lemma {:induction false} EndsWithLabel(q: bytes, s: bytes, t: bytes)
    requires DOT !in s && DOT !in t
    ensures EndsWith(q + [DOT] + s, [DOT] + t) <==> s == t
  {
    hide LastDot;
    var key := q + [DOT] + s;
    assert key[|q|..] == [DOT] + s;
    if EndsWith(key, [DOT] + t) {
      SameLastLabel(q, s, key[..|key| - |t| - 1], t, key);
    }
  }

  /** The last dot of a name settles what its last label is. */
  lemma {:induction false} SameLastLabel(q: bytes, s: bytes, r: bytes, t: bytes, key: bytes)
    requires DOT !in s && DOT !in t
    requires key == q + [DOT] + s && |r| <= |key| && key[..|r|] == r && key[|r|..] == [DOT] + t
    ensures s == t
  {
    hide LastDot;
    assert key == key[..|r|] + key[|r|..];
    assert r + ([DOT] + t) == r + [DOT] + t;
    LastDotBehind(q, s, key);
    LastDotBehind(r, t, key);
    assert LastDot(s) == -1 && LastDot(t) == -1;
    assert key[|q| + 1..] == s && key[|r| + 1..] == t;
  }

  lemma {:induction false} KeyOfBareSingle(s: bytes)
    requires DOT !in s && s != []
    ensures LastTwoLabels(s) == [STAR, DOT] + s
    ensures SuffixKey(s) == if Known(s) then s else [STAR, DOT] + s
    ensures SuffixKey([STAR, DOT] + s) == SuffixKey(s)
  {
    hide EndsWith;
    LastDotIs(s, -1);
    LastDotIs([STAR], -1);
    assert [STAR, DOT] + s == [STAR] + [DOT] + s;
    KnownKey([STAR], s);
    assert [STAR][0..] == [STAR];
    hide LastTwoLabels, LastDot;
    KeyOfSingle([STAR], s, [STAR, DOT] + s);
  }

  // ----- Which rules a lookup reaches -----

  /** Rules that every matching name finds: of two labels or more, or one of the two known ones. */
  predicate Specific(rule: bytes) {
    DOT in rule || Known(rule)
  }

  ghost predicate WellFormed(r: Rule) {
    && (r.SuffixRule? ==> ValidDomain(r.name) && r.name == SuffixName(r.pattern) && SuffixKey(r.pattern) != [])
    && (r.PrefixRule? ==> ValidDomain(r.name) && r.pattern == r.name + [DOT, STAR])
  }

  lemma {:induction false} NamesAreClean(rule: bytes)
    requires ValidDomain(rule)
    ensures rule != [] && STAR !in rule && 0 !in rule
    ensures rule[0] == DOT ==> rule == [DOT]
  {
    if rule != [DOT] {
      var v := WithoutFinalDot(rule);
      assert StartsLabel(v, 0);
      assert forall i :: 0 <= i < |v| ==> v[i] == rule[i];
      if |v| < |rule| {
        assert rule == v + [DOT];
      }
    }
  }

  /** A rule is filed under the key of the name it is about. */
  lemma {:induction false} FiledUnderName(r: Rule)
    requires r.SuffixRule? && WellFormed(r)
    ensures SuffixKey(r.pattern) == SuffixKey(r.name)
  {
    hide SuffixKey, ValidDomain;
    NamesAreClean(r.name);
    if r.pattern != r.name {
      assert r.pattern == [STAR, DOT] + r.name;
      assert r.pattern == [STAR] + [DOT] + r.name;
      if DOT in r.name {
        SameKey([STAR], r.name, r.pattern);
      } else {
        KeyOfBareSingle(r.name);
      }
    }
  }

  /** The label in front of the last one is a star. */
  predicate StarBefore(name: bytes, rule: bytes) {
    LastTwoLabels(name) == [STAR, DOT] + rule
  }

  /** Which matching rules are found under the name's own key. */
  lemma {:induction false} ReachedByName(rule: bytes, name: bytes)
    requires ValidDomain(rule) && MatchesSuffix(rule, name)
    ensures SuffixKey(name) == SuffixKey(rule) <==> Specific(rule) || StarBefore(name, rule)
  {
    NamesAreClean(rule);
    if DOT in rule {
      DottedRulesShareKey(rule, name);
    } else {
      KeyOfBareSingle(rule);
      if name != rule {
        SplitMatch(rule, name);
        var p := name[..|name| - |rule| - 1];
        KeyOfSingle(p, rule, name);
        LastTwoOfSingle(p, rule, name);
      } else {
        LastDotIs(rule, -1);
      }
    }
  }
}

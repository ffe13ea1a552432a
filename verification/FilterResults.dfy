/** The index against a plain scan of the rules in the order they were given. */
module FilterResults {
  import opened Bytes
  import opened Names
  import opened FilterRules
  import opened FilterKeys

  datatype Item = Item(name: bytes, kind: Kind)

  // ----- What the index holds -----

  function SuffixBucket(rules: seq<Rule>, key: bytes): seq<Item> {
    if rules == [] then [] else
      var r := rules[|rules| - 1];
      SuffixBucket(rules[..|rules| - 1], key) +
      if r.SuffixRule? && SuffixKey(r.pattern) == key then [Item(r.name, r.kind)] else []
  }

  function PrefixBucket(rules: seq<Rule>, key: bytes): seq<Item> {
    if rules == [] then [] else
      var r := rules[|rules| - 1];
      PrefixBucket(rules[..|rules| - 1], key) +
      if r.PrefixRule? && PrefixKey(r.pattern) == key then [Item(r.name, r.kind)] else []
  }

  function Middles(rules: seq<Rule>): seq<Item> {
    if rules == [] then [] else
      var r := rules[|rules| - 1];
      Middles(rules[..|rules| - 1]) + if r.MiddleRule? then [Item(r.name, r.kind)] else []
  }

  function Regexes(rules: seq<Rule>): seq<Item> {
    if rules == [] then [] else
      var r := rules[|rules| - 1];
      Regexes(rules[..|rules| - 1]) + if r.RegexRule? then [Item(r.expression, r.kind)] else []
  }

  // ----- Searching a bucket -----

  function SuffixItem(items: seq<Item>, name: bytes): Option<Kind> {
    if items == [] then None else
      var it := items[|items| - 1];
      Or(SuffixItem(items[..|items| - 1], name), if MatchesSuffix(it.name, name) then Some(it.kind) else None)
  }

  function PrefixItem(items: seq<Item>, name: bytes): Option<Kind> {
    if items == [] then None else
      var it := items[|items| - 1];
      Or(PrefixItem(items[..|items| - 1], name), if MatchesPrefix(it.name, name) then Some(it.kind) else None)
  }

  function MiddleItem(items: seq<Item>, name: bytes): Option<Kind> {
    if items == [] then None else
      var it := items[|items| - 1];
      Or(MiddleItem(items[..|items| - 1], name), if Occurs(CString(it.name), name) then Some(it.kind) else None)
  }

  function RegexItem(regex: Regex, items: seq<Item>, name: bytes): Option<Kind> {
    if items == [] then None else
      var it := items[|items| - 1];
      Or(RegexItem(regex, items[..|items| - 1], name), if regex(it.name, name) != Fails then Some(it.kind) else None)
  }

  function SuffixLookup(rules: seq<Rule>, name: bytes): Option<Kind> {
    SuffixItem(SuffixBucket(rules, SuffixKey(name)), name)
  }

  function StarredLookup(rules: seq<Rule>, name: bytes): Option<Kind> {
    if FirstDot(name) < |name| then SuffixLookup(rules, Starred(name)) else None
  }

  function PrefixLookup(rules: seq<Rule>, name: bytes): Option<Kind> {
    if PrefixKey(name) == [] then None else PrefixItem(PrefixBucket(rules, PrefixKey(name)), name)
  }

  /** What a lookup in the index yields, for a name in lower case. */
  function Found(regex: Regex, rules: seq<Rule>, name: bytes): Option<Kind> {
    Or(SuffixLookup(rules, name),
       Or(StarredLookup(rules, name),
          Or(PrefixLookup(rules, name),
             Or(MiddleItem(Middles(rules), name), RegexItem(regex, Regexes(rules), name)))))
  }

  ghost predicate AllWellFormed(rules: seq<Rule>) {
    forall i :: 0 <= i < |rules| ==> WellFormed(rules[i])
  }

  // ----- Suffix rules -----

  predicate Reaches(rule: bytes, name: bytes) {
    MatchesSuffix(rule, name) && (Specific(rule) || StarBefore(name, rule))
  }

  function FirstReached(rules: seq<Rule>, name: bytes): Option<Kind> {
    if rules == [] then None else
      var r := rules[|rules| - 1];
      Or(FirstReached(rules[..|rules| - 1], name),
         if r.SuffixRule? && Reaches(r.name, name) then Some(r.kind) else None)
  }

  lemma {:induction false} LookupReaches(rules: seq<Rule>, name: bytes)
    requires AllWellFormed(rules)
    ensures SuffixLookup(rules, name) == FirstReached(rules, name)
  {
    hide SuffixKey, MatchesSuffix, Specific, StarBefore, WellFormed;
    if rules != [] {
      var n := |rules| - 1;
      var r, key := rules[n], SuffixKey(name);
      LookupReaches(rules[..n], name);
      var before := SuffixBucket(rules[..n], key);
      assert before + [] == before;
      if r.SuffixRule? {
        FiledUnderName(r);
        assert (before + [Item(r.name, r.kind)])[..|before|] == before;
        if MatchesSuffix(r.name, name) {
          WellFormedName(r);
          ReachedByName(r.name, name);
        }
      }
    }
  }

  lemma {:induction false} WellFormedName(r: Rule)
    requires r.SuffixRule? && WellFormed(r)
    ensures ValidDomain(r.name)
  {
  }

  /** The name is one label in front of the rule's single label. */
  predicate OneInFront(rule: bytes, name: bytes) {
    DOT !in rule && FirstDot(name) < |name| && name[FirstDot(name) + 1..] == rule
  }

  function FirstOneInFront(rules: seq<Rule>, name: bytes): Option<Kind> {
    if rules == [] then None else
      var r := rules[|rules| - 1];
      Or(FirstOneInFront(rules[..|rules| - 1], name),
         if r.SuffixRule? && OneInFront(r.name, name) then Some(r.kind) else None)
  }

  lemma {:induction false} StarredShape(name: bytes)
    requires FirstDot(name) < |name|
    ensures var rest := name[FirstDot(name) + 1..];
            Starred(name) == [STAR] + [DOT] + rest && name == name[..FirstDot(name)] + [DOT] + rest
  {
    var f := FirstDot(name);
    hide FirstDot;
    SplitAt(name, f);
    Concat([STAR], [DOT], name[f + 1..]);
    Concat(name[..f], [DOT], name[f + 1..]);
  }

  lemma {:induction false} SplitAt(name: bytes, f: nat)
    requires f < |name| && name[f] == DOT
    ensures name[f..] == [DOT] + name[f + 1..] && name == name[..f] + ([DOT] + name[f + 1..])
  {
  }

  /** A rule that reaches the starred name but not the name itself has just one label in front of it there. */
  lemma {:induction false} StarredReaches(rule: bytes, name: bytes)
    requires ValidDomain(rule) && FirstDot(name) < |name| && !Reaches(rule, name)
    ensures Reaches(rule, Starred(name)) <==> OneInFront(rule, name)
  {
    hide Known, ValidDomain, LastTwoLabels, LastDot, MatchesSuffix;
    var l, rest := name[..FirstDot(name)], name[FirstDot(name) + 1..];
    StarredShape(name);
    NamesAreClean(rule);
    if OneInFront(rule, name) {
      JoinMatches([STAR], rule);
      StarKey(rule);
    } else if Reaches(rule, Starred(name)) {
      assert Starred(name)[0] == STAR;
      MatchInRest(rule, rest, l, name);
      if DOT !in rule {
        OtherwiseReached(rule, rest, l, name);
      }
    }
  }

  lemma {:induction false} StarKey(rule: bytes)
    requires rule != [] && DOT !in rule
    ensures StarBefore([STAR] + [DOT] + rule, rule)
  {
    LastDotIs([STAR], -1);
    assert [STAR][0..] == [STAR];
    assert [STAR] + [DOT] + rule == [STAR, DOT] + rule;
    hide LastDot, LastTwoLabels;
    LastTwoOfSingle([STAR], rule, [STAR] + [DOT] + rule);
  }

  lemma {:induction false} MatchInRest(rule: bytes, rest: bytes, l: bytes, name: bytes)
    requires MatchesSuffix(rule, [STAR] + [DOT] + rest) && rule != [STAR] + [DOT] + rest && name == l + [DOT] + rest
    requires STAR !in rule
    ensures MatchesSuffix(rule, name) && MatchesSuffix(rule, rest)
  {
    var s := [STAR] + [DOT] + rest;
    if rule == rest {
      JoinMatches(l, rest);
    } else {
      SplitMatch(rule, s);
      assert s[0] == STAR && s[2..] == rest;
      assert |rule| < |rest|;
      assert rest[|rest| - |rule|..] == s[|s| - |rule|..];
      assert rest[|rest| - |rule| - 1] == s[|s| - |rule| - 1];
      assert name[|name| - |rule|..] == rest[|rest| - |rule|..];
      assert name[|name| - |rule| - 1] == rest[|rest| - |rule| - 1];
    }
  }

  lemma {:induction false} OtherwiseReached(rule: bytes, rest: bytes, l: bytes, name: bytes)
    requires name == l + [DOT] + rest && MatchesSuffix(rule, rest) && rule != rest && rule != [] && DOT !in rule
    ensures StarBefore([STAR] + [DOT] + rest, rule) <==> StarBefore(name, rule)
  {
    hide LastTwoLabels, LastDot, MatchesSuffix;
    SplitMatch(rule, rest);
    var p := rest[..|rest| - |rule| - 1];
    assert name == (l + [DOT] + p) + [DOT] + rule;
    assert [STAR] + [DOT] + rest == ([STAR] + [DOT] + p) + [DOT] + rule;
    LastTwoOfSingle(l + [DOT] + p, rule, name);
    LastTwoOfSingle([STAR] + [DOT] + p, rule, [STAR] + [DOT] + rest);
    LastDotBehind(l, p, l + [DOT] + p);
    LastDotBehind([STAR], p, [STAR] + [DOT] + p);
    var e := LastDot(p);
    assert (l + [DOT] + p)[|l| + 1 + e + 1..] == p[e + 1..];
    assert ([STAR] + [DOT] + p)[2 + e + 1..] == p[e + 1..];
  }

  lemma {:induction false} StarredIsOneInFront(rules: seq<Rule>, name: bytes)
    requires AllWellFormed(rules) && FirstDot(name) < |name| && FirstReached(rules, name).None?
    ensures FirstReached(rules, Starred(name)) == FirstOneInFront(rules, name)
  {
    hide Reaches, OneInFront, WellFormed, Starred;
    if rules != [] {
      var n := |rules| - 1;
      StarredIsOneInFront(rules[..n], name);
      if rules[n].SuffixRule? {
        WellFormedName(rules[n]);
        StarredReaches(rules[n].name, name);
      }
    }
  }

  lemma {:induction false} OneInFrontNeedsDot(rules: seq<Rule>, name: bytes)
    requires FirstDot(name) == |name|
    ensures FirstOneInFront(rules, name).None?
  {
    if rules != [] {
      OneInFrontNeedsDot(rules[..|rules| - 1], name);
    }
  }

  /** Both lookups together. */
  lemma {:induction false} SuffixesExactly(rules: seq<Rule>, name: bytes)
    requires AllWellFormed(rules)
    ensures Or(SuffixLookup(rules, name), StarredLookup(rules, name)) ==
            Or(FirstReached(rules, name), FirstOneInFront(rules, name))
  {
    hide SuffixLookup, FirstReached, FirstOneInFront, Starred;
    LookupReaches(rules, name);
    if FirstReached(rules, name).None? {
      if FirstDot(name) < |name| {
        LookupReaches(rules, Starred(name));
        StarredIsOneInFront(rules, name);
      } else {
        OneInFrontNeedsDot(rules, name);
      }
    }
  }

  // ----- Prefix, middle and regular-expression rules -----

  /** A prefix rule is filed under the first label of every name it matches. */
  lemma {:induction false} PrefixesShareKey(r: Rule, name: bytes)
    requires r.PrefixRule? && WellFormed(r) && DOT in name && MatchesPrefix(r.name, name)
    ensures PrefixKey(name) == PrefixKey(r.pattern)
  {
    hide ValidDomain;
    var f, g := FirstDot(name), FirstDot(r.pattern);
    assert r.pattern[|r.name|] == DOT;
    assert forall i :: 0 <= i < |r.name| ==> r.pattern[i] == r.name[i] == name[i];
    assert f <= |r.name| && g <= |r.name|;
    assert name[..f + 1] == r.pattern[..g + 1];
  }

  lemma {:induction false} PrefixesExactly(rules: seq<Rule>, name: bytes)
    requires AllWellFormed(rules)
    ensures PrefixLookup(rules, name) == FirstPrefix(rules, name)
  {
    if DOT in name {
      assert FirstDot(name) < |name|;
      PrefixBucketExactly(rules, name);
    } else {
      NoPrefixWithoutDot(rules, name);
    }
  }

  lemma {:induction false} PrefixBucketExactly(rules: seq<Rule>, name: bytes)
    requires AllWellFormed(rules) && DOT in name
    ensures PrefixItem(PrefixBucket(rules, PrefixKey(name)), name) == FirstPrefix(rules, name)
  {
    hide PrefixKey, MatchesPrefix, WellFormed;
    if rules != [] {
      var n := |rules| - 1;
      var r := rules[n];
      PrefixBucketExactly(rules[..n], name);
      var before := PrefixBucket(rules[..n], PrefixKey(name));
      assert before + [] == before;
      if r.PrefixRule? {
        assert (before + [Item(r.name, r.kind)])[..|before|] == before;
        if MatchesPrefix(r.name, name) {
          PrefixesShareKey(r, name);
        }
      }
    }
  }

  lemma {:induction false} NoPrefixWithoutDot(rules: seq<Rule>, name: bytes)
    requires DOT !in name
    ensures FirstPrefix(rules, name).None?
  {
    if rules != [] {
      NoPrefixWithoutDot(rules[..|rules| - 1], name);
    }
  }

  lemma {:induction false} MiddlesExactly(rules: seq<Rule>, name: bytes)
    ensures MiddleItem(Middles(rules), name) == FirstMiddle(rules, name)
  {
    hide Occurs;
    if rules != [] {
      var n := |rules| - 1;
      var r, before := rules[n], Middles(rules[..n]);
      MiddlesExactly(rules[..n], name);
      assert before + [] == before;
      if r.MiddleRule? {
        assert (before + [Item(r.name, r.kind)])[..|before|] == before;
      }
    }
  }

  lemma {:induction false} RegexesExactly(regex: Regex, rules: seq<Rule>, name: bytes)
    ensures RegexItem(regex, Regexes(rules), name) == FirstRegex(regex, rules, name)
  {
    if rules != [] {
      var n := |rules| - 1;
      var r, before := rules[n], Regexes(rules[..n]);
      RegexesExactly(regex, rules[..n], name);
      assert before + [] == before;
      if r.RegexRule? {
        assert (before + [Item(r.expression, r.kind)])[..|before|] == before;
      }
    }
  }

  // ----- Both together -----

  /** What the index finds, for any rules and any name, said without keys. */
  lemma {:induction false} FoundExactly(regex: Regex, rules: seq<Rule>, name: bytes)
    requires AllWellFormed(rules)
    ensures Found(regex, rules, name) ==
              Or(FirstReached(rules, name),
                 Or(FirstOneInFront(rules, name),
                    Or(FirstPrefix(rules, name), Or(FirstMiddle(rules, name), FirstRegex(regex, rules, name)))))
  {
    hide SuffixLookup, StarredLookup, PrefixLookup, FirstReached, FirstOneInFront, FirstPrefix, FirstMiddle,
         FirstRegex, MiddleItem, RegexItem;
    SuffixesExactly(rules, name);
    PrefixesExactly(rules, name);
    MiddlesExactly(rules, name);
    RegexesExactly(regex, rules, name);
  }

  ghost predicate AllSpecific(rules: seq<Rule>) {
    forall i :: 0 <= i < |rules| && rules[i].SuffixRule? ==> Specific(rules[i].name)
  }

  lemma {:induction false} SpecificAreReached(rules: seq<Rule>, name: bytes)
    requires AllSpecific(rules)
    ensures FirstReached(rules, name) == FirstSuffix(rules, name)
  {
    hide Specific, MatchesSuffix;
    if rules != [] {
      SpecificAreReached(rules[..|rules| - 1], name);
    }
  }

  lemma {:induction false} SpecificOneInFront(rules: seq<Rule>, name: bytes)
    requires FirstSuffix(rules, name).None?
    ensures FirstOneInFront(rules, name).None?
  {
    if rules != [] {
      var r := rules[|rules| - 1];
      SpecificOneInFront(rules[..|rules| - 1], name);
      if r.SuffixRule? && OneInFront(r.name, name) {
        StarredShape(name);
        JoinMatches(name[..FirstDot(name)], r.name);
      }
    }
  }

  /** Filing rules under keys hides none, so long as each has two labels or ends in lan or local. */
  lemma {:induction false} IndexAgreesWithScan(regex: Regex, rules: seq<Rule>, name: bytes)
    requires AllWellFormed(rules) && AllSpecific(rules)
    ensures Found(regex, rules, name) == Scan(regex, rules, name)
  {
    hide Found, FirstReached, FirstOneInFront, FirstPrefix, FirstMiddle, FirstRegex, FirstSuffix;
    FoundExactly(regex, rules, name);
    SpecificAreReached(rules, name);
    if FirstSuffix(rules, name).None? {
      SpecificOneInFront(rules, name);
    }
  }

  lemma {:induction false} NoRules(regex: Regex, name: bytes)
    ensures FirstSuffix([], name).None? && FirstReached([], name).None? && FirstOneInFront([], name).None?
    ensures FirstPrefix([], name).None? && FirstMiddle([], name).None? && FirstRegex(regex, [], name).None?
  {
  }

  lemma {:induction false} OneSuffixRule(regex: Regex, r: Rule, rules: seq<Rule>, name: bytes)
    requires r.SuffixRule? && rules == [r]
    ensures FirstSuffix(rules, name) == if MatchesSuffix(r.name, name) then Some(r.kind) else None
    ensures FirstReached(rules, name) == if Reaches(r.name, name) then Some(r.kind) else None
    ensures FirstOneInFront(rules, name) == if OneInFront(r.name, name) then Some(r.kind) else None
    ensures FirstPrefix(rules, name).None? && FirstMiddle(rules, name).None? && FirstRegex(regex, rules, name).None?
  {
    hide MatchesSuffix, Reaches, OneInFront, Occurs, MatchesPrefix;
    assert rules[..0] == [];
    NoRules(regex, name);
  }

  /**
    * A rule that matches on label boundaries is found exactly when it has two labels or is a known
    * one, or the name is it or has one label in front of it, or a star stands in front of it.
    */
  lemma {:induction false} HiddenExactly(regex: Regex, r: Rule, name: bytes)
    requires r.SuffixRule? && WellFormed(r) && MatchesSuffix(r.name, name)
    ensures Scan(regex, [r], name) == Some(r.kind)
    ensures Found(regex, [r], name) == Some(r.kind) <==>
            Specific(r.name) || StarBefore(name, r.name) || OneInFront(r.name, name)
  {
    hide Specific, StarBefore, OneInFront, MatchesSuffix, WellFormed, Found, FirstReached, FirstOneInFront, FirstPrefix,
         FirstMiddle, FirstRegex, FirstSuffix;
    FoundExactly(regex, [r], name);
    OneSuffixRule(regex, r, [r], name);
  }

  const COM: bytes := [99, 111, 109]

  lemma {:induction false} ComIsValid()
    ensures ValidDomain(COM) && SuffixName(COM) == COM && DOT !in COM && !Known(COM)
  {
    assert WithoutFinalDot(COM) == COM && |COM| == 3;
    assert ValidLabels(COM);
  }

  lemma {:induction false} ComIsARule(kind: Kind)
    ensures WellFormed(SuffixRule(COM, COM, kind)) && !Specific(COM)
  {
    hide ValidDomain, SuffixKey, Known, SuffixName;
    ComIsValid();
    KeyOfBareSingle(COM);
  }

  const AB: bytes := [97, DOT, 98]

  lemma {:induction false} ComIsFarFrom(name: bytes)
    requires name == AB + [DOT] + COM
    ensures !StarBefore(name, COM) && !OneInFront(COM, name)
  {
    hide LastDot, FirstDot, LastTwoLabels;
    ComIsValid();
    LastTwoOfSingle(AB, COM, name);
    LastDotIs(AB, 1);
    assert (AB[2..] + [DOT] + COM)[0] == 98;
    assert name[1] == DOT;
    assert |name| == 7;
    assert FirstDot(name) <= 1;
  }

  /** The rule `com` and the name `a.b.com`. */
  lemma {:induction false} SingleLabelRuleIsMissed(regex: Regex, kind: Kind)
    ensures var r, name := SuffixRule(COM, COM, kind), AB + [DOT] + COM;
            Scan(regex, [r], name) == Some(kind) && Found(regex, [r], name) != Some(kind)
  {
    hide MatchesSuffix, Found, Scan, WellFormed, Specific, StarBefore, OneInFront;
    ComIsARule(kind);
    ComIsFarFrom(AB + [DOT] + COM);
    JoinMatches(AB, COM);
    HiddenExactly(regex, SuffixRule(COM, COM, kind), AB + [DOT] + COM);
  }
}

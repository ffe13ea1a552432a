/** The filter as the program keeps it: rules filed under keys, added one by one, searched per query. */
module DomainFilter {
  import opened Bytes
  import opened Names
  import opened FilterRules
  import opened FilterKeys
  import opened FilterResults

  // ----- Keys -----

  /** The pieces of a string between dots. */
  function Pieces(name: bytes): (r: seq<bytes>)
    ensures |r| >= 1
  {
    var d := LastDot(name);
    if d == -1 then [name] else Pieces(name[..d]) + [name[d + 1..]]
  }

  method SplitAtDots(name: bytes) returns (parts: seq<bytes>)
    requires 0 !in name
    ensures parts == Pieces(name)
  {
    hide LastDot, Pieces;
    parts := [];
    var i, j := 0, 0;
    while j < |name|
      invariant 0 <= i <= j <= |name|
      invariant forall k :: i <= k < j ==> name[k] != DOT
      invariant i == 0 ==> parts == []
      invariant i > 0 ==> name[i - 1] == DOT && parts == Pieces(name[..i - 1])
    {
      if name[j] == DOT {
        PiecesUpTo(name, i, j);
        parts := parts + [name[i..j]];
        i := j + 1;
      }
      j := j + 1;
    }
    PiecesUpTo(name, i, j);
    assert name[..j] == name;
    parts := parts + [name[i..]];
  }

  lemma {:induction false} PiecesUpTo(name: bytes, i: nat, j: nat)
    requires i <= j <= |name| && forall k :: i <= k < j ==> name[k] != DOT
    requires i > 0 ==> name[i - 1] == DOT
    ensures Pieces(name[..j]) == (if i == 0 then [] else Pieces(name[..i - 1])) + [name[i..j]]
  {
    LastDotIs(name[..j], i - 1);
    if i > 0 {
      assert name[..j][..i - 1] == name[..i - 1];
    }
    assert name[..j][i..] == name[i..j];
  }

  method DomainSuffixKey(name: bytes) returns (key: bytes)
    requires 0 !in name
    ensures key == SuffixKey(name)
  {
    var parts := SplitAtDots(name);
    PiecesOfKey(name);
    if |parts| == 1 {
      parts := [[STAR]] + parts;
    }
    key := [];
    var i := |parts|;
    while i > 0
      invariant i == |parts| || i == |parts| - 1
      invariant key == if i == |parts| then [] else parts[i]
    {
      i := i - 1;
      if key != [] {
        key := [DOT] + key;
      }
      key := parts[i] + key;
      if i + 2 == |parts| {
        break;
      }
    }
    assert key == LastTwoLabels(name);
    key := KnownSuffix(key);
  }

  lemma {:induction false} PiecesAre(name: bytes)
    ensures Pieces(name) ==
            if LastDot(name) == -1 then [name] else Pieces(name[..LastDot(name)]) + [name[LastDot(name) + 1..]]
  {
  }

  lemma {:induction false} LastPiece(name: bytes)
    ensures Pieces(name)[|Pieces(name)| - 1] == name[LastDot(name) + 1..]
    ensures |Pieces(name)| == 1 <==> LastDot(name) == -1
  {
    hide LastDot, Pieces;
    PiecesAre(name);
    assert name[0..] == name;
  }

  lemma {:induction false} LastTwoUndotted(name: bytes)
    requires LastDot(name) == -1
    ensures LastTwoLabels(name) == [STAR] + if name == [] then [] else [DOT] + name
  {
    hide LastDot;
    assert [STAR, DOT] + name == [STAR] + ([DOT] + name);
  }

  lemma {:induction false} LastTwoDotted(name: bytes, d: nat, e: int)
    requires LastDot(name) == d && LastDot(name[..d]) == e
    ensures LastTwoLabels(name) == name[..d][e + 1..] + if name[d + 1..] == [] then [] else [DOT] + name[d + 1..]
  {
    hide LastDot, LastTwoLabels;
    LastTwoAre(name, d, e);
    TailBehindDot(name, e + 1, d);
  }

  lemma {:induction false} TailBehindDot(name: bytes, a: nat, d: nat)
    requires a <= d < |name| && name[d] == DOT
    ensures name[a..|name|] == name[..d][a..] + ([DOT] + name[d + 1..])
    ensures name[..d][a..] == name[a..d]
    ensures d == |name| - 1 ==> name[a..d] + [] == name[a..d]
  {
  }

  /** The last piece and the one before it make the key; an empty last piece takes no dot. */
  lemma {:induction false} PiecesOfKey(name: bytes)
    ensures var p := (if |Pieces(name)| == 1 then [[STAR]] else []) + Pieces(name);
            |p| >= 2 && LastTwoLabels(name) == p[|p| - 2] + if p[|p| - 1] == [] then [] else [DOT] + p[|p| - 1]
  {
    hide LastDot, Pieces, LastTwoLabels;
    PiecesAre(name);
    LastPiece(name);
    assert [] + Pieces(name) == Pieces(name);
    var d := LastDot(name);
    if d >= 0 {
      LastPiece(name[..d]);
      LastTwoDotted(name, d, LastDot(name[..d]));
    } else {
      LastTwoUndotted(name);
    }
  }

  method KnownSuffix(long: bytes) returns (key: bytes)
    ensures key == if EndsWith(long, [DOT] + LAN) then LAN else if EndsWith(long, [DOT] + LOCAL) then LOCAL else long
  {
    key := long;
    var known := [LAN, LOCAL];
    for k := 0 to 2
      invariant key == long
      invariant k > 0 ==> !EndsWith(long, [DOT] + LAN)
      invariant k > 1 ==> !EndsWith(long, [DOT] + LOCAL)
    {
      var s := known[k];
      EndsBehindDot(key, s);
      if |key| > |s| && key[|key| - |s|..] == s {
        var i := |key| - |s| - 1;
        if key[i] == DOT {
          return key[i + 1..];
        }
      }
    }
  }

  lemma {:induction false} EndsBehindDot(key: bytes, s: bytes)
    ensures EndsWith(key, [DOT] + s) <==> |key| > |s| && key[|key| - |s|..] == s && key[|key| - |s| - 1] == DOT
  {
    if |key| > |s| {
      var i := |key| - |s| - 1;
      assert key[i..] == [key[i]] + key[i + 1..];
      assert |[DOT] + s| == |s| + 1;
      assert ([DOT] + s)[0] == DOT && ([DOT] + s)[1..] == s;
    }
  }

  method DomainPrefixKey(name: bytes) returns (key: bytes)
    ensures key == PrefixKey(name)
  {
    var i := 0;
    while i < |name| && name[i] != DOT
      invariant 0 <= i <= |name| && forall k :: 0 <= k < i ==> name[k] != DOT
    {
      i := i + 1;
    }
    return if i < |name| then name[..i + 1] else [];
  }

  // ----- Domain names -----

  method IsValidDomain(s: bytes) returns (ok: bool)
    ensures ok <==> ValidDomain(s)
  {
    if s == [] {
      return false;
    }
    if s == [DOT] {
      return true;
    }
    var v := WithoutFinalDot(s);
    if v == [] || |v| > 253 || v[0] == DOT || v[|v| - 1] == DOT {
      assert v != [] ==> StartsLabel(v, 0);
      return false;
    }
    ok := CheckLabels(v);
  }

  /** The label being read, and what is known of those before it. */
  ghost predicate Read(v: bytes, i: nat, n: nat) {
    && n <= i <= |v| && n <= 63
    && (forall k :: i - n <= k < i ==> v[k] != DOT)
    && (i - n > 0 ==> v[i - n - 1] == DOT)
    && (forall k :: 0 <= k < i ==> v[k] == DOT || DomainByte(v[k]))
    && (forall k :: 0 <= k < i && StartsLabel(v, k) ==> v[k] != DOT && v[k] != HYPHEN)
    && (forall k :: 0 <= k && k + 64 <= i ==> DotWithin(v, k, 64))
  }

  method CheckLabels(v: bytes) returns (ok: bool)
    requires 0 < |v| <= 253 && v[|v| - 1] != DOT
    ensures ok <==> ValidLabels(v)
  {
    hide Read, ValidLabels, StartsLabel, DotWithin;
    var n := 0;
    ReadNothing(v);
    for i := 0 to |v|
      invariant n <= 63 && n <= i && Read(v, i, n)
    {
      var c := v[i];
      if c == DOT {
        if n == 0 || n > 63 {
          EmptyLabel(v, i);
          return false;
        }
        ReadDot(v, i, n);
        n := 0;
      } else {
        if !(IsAlnum(c) || c == HYPHEN || c == UNDERSCORE) {
          BadByte(v, i);
          return false;
        }
        if n == 0 && c == HYPHEN {
          HyphenFirst(v, i);
          return false;
        }
        n := n + 1;
        if n > 63 {
          LongLabel(v, i);
          return false;
        }
        ReadByte(v, i, n);
      }
    }
    ReadAllOf(v, n);
    return true;
  }

  lemma {:induction false} ReadNothing(v: bytes)
    ensures Read(v, 0, 0)
  {
  }

  lemma {:induction false} ReadAllOf(v: bytes, n: nat)
    requires 0 < |v| <= 253 && v[|v| - 1] != DOT && Read(v, |v|, n)
    ensures ValidLabels(v)
  {
  }

  lemma {:induction false} EmptyLabel(v: bytes, i: nat)
    requires i < |v| && Read(v, i, 0) && v[i] == DOT
    ensures !ValidLabels(v)
  {
    assert StartsLabel(v, i);
  }

  lemma {:induction false} BadByte(v: bytes, i: nat)
    requires i < |v| && v[i] != DOT && !DomainByte(v[i])
    ensures !ValidLabels(v)
  {
  }

  lemma {:induction false} HyphenFirst(v: bytes, i: nat)
    requires i < |v| && Read(v, i, 0) && v[i] == HYPHEN
    ensures !ValidLabels(v)
  {
    assert StartsLabel(v, i);
  }

  lemma {:induction false} LongLabel(v: bytes, i: nat)
    requires i < |v| && Read(v, i, 63) && v[i] != DOT
    ensures !ValidLabels(v)
  {
    assert !DotWithin(v, i - 63, 64);
  }

  lemma {:induction false} ReadDot(v: bytes, i: nat, n: nat)
    requires i < |v| && Read(v, i, n) && 0 < n && v[i] == DOT
    ensures Read(v, i + 1, 0)
  {
    forall k | 0 <= k && k + 64 <= i + 1 ensures DotWithin(v, k, 64) {
      if k + 64 == i + 1 {
        assert k <= i < k + 64 && v[i] == DOT;
      }
    }
  }

  lemma {:induction false} ReadByte(v: bytes, i: nat, n: nat)
    requires i < |v| && n > 0 && Read(v, i, n - 1) && n <= 63 && v[i] != DOT && DomainByte(v[i])
    requires n == 1 ==> v[i] != HYPHEN
    ensures Read(v, i + 1, n)
  {
    forall k | 0 <= k && k + 64 <= i + 1 ensures DotWithin(v, k, 64) {
      if k + 64 == i + 1 {
        assert k <= i - n < k + 64 && v[i - n] == DOT;
      }
    }
  }

  // ----- The filter -----

  type Table = map<bytes, seq<Item>>

  function At(table: Table, key: bytes): seq<Item> {
    if key in table then table[key] else []
  }

  function Filed(table: Table, key: bytes, item: Item): (r: Table)
    ensures forall k :: At(r, k) == At(table, k) + if k == key then [item] else []
  {
    table[key := At(table, key) + [item]]
  }

  ghost predicate SuffixesFiled(table: Table, rules: seq<Rule>) {
    forall key :: At(table, key) == SuffixBucket(rules, key)
  }

  ghost predicate PrefixesFiled(table: Table, rules: seq<Rule>) {
    forall key :: At(table, key) == PrefixBucket(rules, key)
  }

  /** Tables and lists hold just what the rules, in order, put there. */
  ghost predicate Agrees(suffixes: Table, prefixes: Table, middles: seq<Item>, regexes: seq<Item>, rules: seq<Rule>) {
    && SuffixesFiled(suffixes, rules) && PrefixesFiled(prefixes, rules)
    && middles == Middles(rules) && regexes == Regexes(rules)
    && AllWellFormed(rules)
  }

  lemma {:induction false} OneMore(rules: seq<Rule>, r: Rule)
    ensures forall key :: SuffixBucket(rules + [r], key) ==
                          SuffixBucket(rules, key) +
                          if r.SuffixRule? && SuffixKey(r.pattern) == key then [Item(r.name, r.kind)] else []
    ensures forall key :: PrefixBucket(rules + [r], key) ==
                          PrefixBucket(rules, key) +
                          if r.PrefixRule? && PrefixKey(r.pattern) == key then [Item(r.name, r.kind)] else []
    ensures Middles(rules + [r]) == Middles(rules) + if r.MiddleRule? then [Item(r.name, r.kind)] else []
    ensures Regexes(rules + [r]) == Regexes(rules) + if r.RegexRule? then [Item(r.expression, r.kind)] else []
  {
    hide SuffixKey, PrefixKey;
    assert (rules + [r])[..|rules|] == rules;
  }

  lemma {:induction false} SameTables(s: Table, p: Table, m: seq<Item>, x: seq<Item>, rules: seq<Rule>, r: Rule)
    requires Agrees(s, p, m, x, rules) && WellFormed(r)
    ensures !r.SuffixRule? ==> SuffixesFiled(s, rules + [r])
    ensures !r.PrefixRule? ==> PrefixesFiled(p, rules + [r])
    ensures !r.MiddleRule? ==> m == Middles(rules + [r])
    ensures !r.RegexRule? ==> x == Regexes(rules + [r])
    ensures AllWellFormed(rules + [r])
  {
    hide SuffixBucket, PrefixBucket, Middles, Regexes, WellFormed, SuffixKey, PrefixKey, At;
    OneMore(rules, r);
    assert m + [] == m && x + [] == x;
    forall key
      ensures SuffixBucket(rules, key) + [] == SuffixBucket(rules, key)
      ensures PrefixBucket(rules, key) + [] == PrefixBucket(rules, key)
    {}
    if !r.SuffixRule? {
      forall key ensures At(s, key) == SuffixBucket(rules + [r], key) {
        assert At(s, key) == SuffixBucket(rules, key);
      }
    }
    if !r.PrefixRule? {
      forall key ensures At(p, key) == PrefixBucket(rules + [r], key) {
        assert At(p, key) == PrefixBucket(rules, key);
      }
    }
  }

  lemma {:induction false} SuffixGrows(s: Table, p: Table, m: seq<Item>, x: seq<Item>, rules: seq<Rule>, r: Rule)
    requires Agrees(s, p, m, x, rules) && WellFormed(r) && r.SuffixRule?
    ensures Agrees(Filed(s, SuffixKey(r.pattern), Item(r.name, r.kind)), p, m, x, rules + [r])
  {
    hide SuffixesFiled, PrefixesFiled, AllWellFormed, WellFormed, SuffixKey, Filed, Middles, Regexes;
    SameTables(s, p, m, x, rules, r);
    SuffixTableGrows(s, rules, r);
  }

  lemma {:induction false} SuffixTableGrows(s: Table, rules: seq<Rule>, r: Rule)
    requires SuffixesFiled(s, rules) && r.SuffixRule?
    ensures SuffixesFiled(Filed(s, SuffixKey(r.pattern), Item(r.name, r.kind)), rules + [r])
  {
    hide SuffixBucket, PrefixBucket, Middles, Regexes, SuffixKey, PrefixKey, At, Filed;
    OneMore(rules, r);
    var s1 := Filed(s, SuffixKey(r.pattern), Item(r.name, r.kind));
    forall key ensures At(s1, key) == SuffixBucket(rules + [r], key) {
      assert At(s, key) == SuffixBucket(rules, key);
    }
  }

  lemma {:induction false} PrefixGrows(s: Table, p: Table, m: seq<Item>, x: seq<Item>, rules: seq<Rule>, r: Rule)
    requires Agrees(s, p, m, x, rules) && WellFormed(r) && r.PrefixRule?
    ensures Agrees(s, Filed(p, PrefixKey(r.pattern), Item(r.name, r.kind)), m, x, rules + [r])
  {
    hide SuffixesFiled, PrefixesFiled, AllWellFormed, WellFormed, PrefixKey, Filed, Middles, Regexes;
    SameTables(s, p, m, x, rules, r);
    PrefixTableGrows(p, rules, r);
  }

  lemma {:induction false} PrefixTableGrows(p: Table, rules: seq<Rule>, r: Rule)
    requires PrefixesFiled(p, rules) && r.PrefixRule?
    ensures PrefixesFiled(Filed(p, PrefixKey(r.pattern), Item(r.name, r.kind)), rules + [r])
  {
    hide SuffixBucket, PrefixBucket, Middles, Regexes, SuffixKey, PrefixKey, At, Filed;
    OneMore(rules, r);
    var p1 := Filed(p, PrefixKey(r.pattern), Item(r.name, r.kind));
    forall key ensures At(p1, key) == PrefixBucket(rules + [r], key) {
      assert At(p, key) == PrefixBucket(rules, key);
    }
  }

  lemma {:induction false} ListsGrow(s: Table, p: Table, m: seq<Item>, x: seq<Item>, rules: seq<Rule>, r: Rule)
    requires Agrees(s, p, m, x, rules) && WellFormed(r)
    ensures r.MiddleRule? ==> Agrees(s, p, m + [Item(r.name, r.kind)], x, rules + [r])
    ensures r.RegexRule? ==> Agrees(s, p, m, x + [Item(r.expression, r.kind)], rules + [r])
  {
    SameTables(s, p, m, x, rules, r);
    hide SuffixesFiled, PrefixesFiled, Middles, Regexes, WellFormed, AllWellFormed, SuffixBucket, PrefixBucket,
         SuffixKey, PrefixKey;
    OneMore(rules, r);
  }

  class Filter {
    var suffixes: Table
    var prefixes: Table
    var middles: seq<Item>
    var regexes: seq<Item>
    var entries: nat
    /** The rules that were accepted, oldest first. */
    ghost var rules: seq<Rule>

    ghost predicate Valid()
      reads this
    {
      && Agrees(suffixes, prefixes, middles, regexes, rules)
      && entries == |rules| <= MAX_RULES && |regexes| <= MAX_REGEX_RULES
    }

    constructor ()
      ensures Valid() && rules == []
    {
      suffixes, prefixes, middles, regexes, entries, rules := map[], map[], [], [], 0, [];
    }

    /** A rule is refused, or becomes the newest. */
    method AddEntry(text: bytes, kind: Kind, compiles: bool) returns (error: Option<RuleError>)
      requires Valid() && 0 !in text
      modifies this
      ensures Valid()
      ensures match Classify(old(entries), |old(regexes)|, text, kind, compiles)
              case Accepted(rule) => error == None && rules == old(rules) + [rule]
              case Refused(e) => error == Some(e) && rules == old(rules)
    {
      hide Valid, ValidDomain, SuffixKey, Lower;
      if text == [] {
        return Some(EmptyRule);
      }
      if entries >= MAX_RULES {
        return Some(TooManyRules);
      }
      if |text| > MAX_RULE_LENGTH {
        return Some(RuleTooLong);
      }
      var low := Lower(text);
      if |text| >= 2 && text[0] == SLASH && text[|text| - 1] == SLASH {
        error := AddRegex(text, kind, compiles);
        return;
      }
      if |low| >= 2 && low[0] == STAR && low[|low| - 1] == STAR {
        var needle := low[1..|low| - 1];
        if needle == [] {
          return Some(EmptyMiddle);
        }
        AddMiddle(needle, kind);
        return None;
      }
      if |low| > 2 && low[|low| - 2..] == [DOT, STAR] {
        error := AddPrefix(low, kind);
        return;
      }
      LowerHasNoNul(text);
      error := AddSuffix(low, kind);
    }

    method AddRegex(text: bytes, kind: Kind, compiles: bool) returns (error: Option<RuleError>)
      requires Valid() && entries < MAX_RULES && |text| >= 2
      modifies this
      ensures Valid()
      ensures error == if |text| == 2 then Some(EmptyRegex)
                       else if |old(regexes)| >= MAX_REGEX_RULES then Some(TooManyRegexes)
                       else if compiles then None else Some(BadRegex)
      ensures rules == old(rules) + if error == None then [RegexRule(text[1..|text| - 1], kind)] else []
    {
      hide SuffixKey, PrefixKey, ValidDomain, Agrees, Filed;
      assert rules + [] == rules;
      if text[1..|text| - 1] == [] {
        return Some(EmptyRegex);
      }
      if |regexes| >= MAX_REGEX_RULES {
        return Some(TooManyRegexes);
      }
      if !compiles {
        return Some(BadRegex);
      }
      ghost var r := RegexRule(text[1..|text| - 1], kind);
      ListsGrow(suffixes, prefixes, middles, regexes, rules, r);
      regexes := regexes + [Item(text[1..|text| - 1], kind)];
      rules := rules + [r];
      entries := entries + 1;
      return None;
    }

    method AddMiddle(needle: bytes, kind: Kind)
      requires Valid() && entries < MAX_RULES
      modifies this
      ensures Valid() && rules == old(rules) + [MiddleRule(needle, kind)]
    {
      hide SuffixKey, PrefixKey, ValidDomain, Agrees, Filed;
      ghost var r := MiddleRule(needle, kind);
      ListsGrow(suffixes, prefixes, middles, regexes, rules, r);
      middles := middles + [Item(needle, kind)];
      rules := rules + [r];
      entries := entries + 1;
    }

    method AddPrefix(low: bytes, kind: Kind) returns (error: Option<RuleError>)
      requires Valid() && entries < MAX_RULES && |low| > 2 && low[|low| - 2..] == [DOT, STAR]
      modifies this
      ensures Valid()
      ensures error == if ValidDomain(low[..|low| - 2]) then None else Some(BadPrefix)
      ensures rules == old(rules) + if error == None then [PrefixRule(low, low[..|low| - 2], kind)] else []
    {
      hide SuffixKey, PrefixKey, ValidDomain, Agrees, Filed;
      assert rules + [] == rules;
      var prefix := low[..|low| - 2];
      var ok := IsValidDomain(prefix);
      if !ok {
        return Some(BadPrefix);
      }
      var key := DomainPrefixKey(low);
      PrefixKeyExists(low);
      if key == [] {
        return Some(BadPrefix);
      }
      ghost var r := PrefixRule(low, prefix, kind);
      assert low == prefix + [DOT, STAR];
      PrefixGrows(suffixes, prefixes, middles, regexes, rules, r);
      prefixes := Filed(prefixes, key, Item(prefix, kind));
      rules := rules + [r];
      entries := entries + 1;
      return None;
    }

    method AddSuffix(low: bytes, kind: Kind) returns (error: Option<RuleError>)
      requires Valid() && entries < MAX_RULES && 0 !in low
      modifies this
      ensures Valid()
      ensures error == if ValidDomain(SuffixName(low)) && SuffixKey(low) != [] then None else Some(BadDomain)
      ensures rules == old(rules) + if error == None then [SuffixRule(low, SuffixName(low), kind)] else []
    {
      hide SuffixKey, PrefixKey, ValidDomain, SuffixName, Agrees, Filed;
      assert rules + [] == rules;
      var name := SuffixName(low);
      var ok := IsValidDomain(name);
      if !ok {
        return Some(BadDomain);
      }
      var key := DomainSuffixKey(low);
      if key == [] {
        return Some(BadDomain);
      }
      ghost var r := SuffixRule(low, name, kind);
      SuffixGrows(suffixes, prefixes, middles, regexes, rules, r);
      suffixes := Filed(suffixes, key, Item(name, kind));
      rules := rules + [r];
      entries := entries + 1;
      return None;
    }

    /** What the filter says of a name is what the rules, in order and on label boundaries, say of it. */
    method Find(regex: Regex, name: bytes) returns (kind: Option<Kind>)
      requires Valid() && 0 !in name
      ensures kind == Found(regex, rules, Lower(name))
      ensures AllSpecific(rules) ==> kind == Scan(regex, rules, Lower(name))
    {
      hide SuffixKey, PrefixKey, SuffixItem, PrefixItem, MiddleItem, RegexItem, AllWellFormed, Lower, Scan;
      var low := Lower(name);
      LowerHasNoNul(name);
      if AllSpecific(rules) {
        IndexAgreesWithScan(regex, rules, low);
      }
      var k := FindSuffix(low);
      if k != None {
        return k;
      }
      var f := IndexOfDot(low);
      if f < |low| {
        k := FindSuffix([STAR] + low[f..]);
        if k != None {
          return k;
        }
      }
      k := FindPrefix(low);
      if k != None {
        return k;
      }
      k := FindMiddle(low);
      if k != None {
        return k;
      }
      kind := FindRegex(regex, low);
    }

    method FindSuffix(name: bytes) returns (kind: Option<Kind>)
      requires Valid() && 0 !in name
      ensures kind == SuffixLookup(rules, name)
    {
      hide SuffixKey, MatchesSuffix;
      var key := DomainSuffixKey(name);
      var items := At(suffixes, key);
      for i := 0 to |items|
        invariant SuffixItem(items[..i], name) == None
      {
        assert items[..i + 1][..i] == items[..i];
        if SuffixMatches(items[i].name, name) {
          SuffixItemStays(items, i + 1, name);
          return Some(items[i].kind);
        }
      }
      assert items[..|items|] == items;
      return None;
    }

    method FindPrefix(name: bytes) returns (kind: Option<Kind>)
      requires Valid()
      ensures kind == PrefixLookup(rules, name)
    {
      hide PrefixKey, MatchesPrefix;
      var key := DomainPrefixKey(name);
      if key == [] {
        return None;
      }
      var items := At(prefixes, key);
      for i := 0 to |items|
        invariant PrefixItem(items[..i], name) == None
      {
        assert items[..i + 1][..i] == items[..i];
        if MatchesPrefix(items[i].name, name) {
          PrefixItemStays(items, i + 1, name);
          return Some(items[i].kind);
        }
      }
      assert items[..|items|] == items;
      return None;
    }

    method FindMiddle(name: bytes) returns (kind: Option<Kind>)
      requires Valid()
      ensures kind == MiddleItem(Middles(rules), name)
    {
      assert middles == Middles(rules);
      hide Occurs, CString, Agrees, Middles, Or;
      for i := 0 to |middles|
        invariant MiddleItem(middles[..i], name) == None
      {
        var found := Contains(name, CString(middles[i].name));
        OneMoreMiddle(middles, i, name);
        if found {
          MiddleItemStays(middles, i + 1, name);
          return Some(middles[i].kind);
        }
      }
      assert middles[..|middles|] == middles;
      return None;
    }

    method FindRegex(regex: Regex, name: bytes) returns (kind: Option<Kind>)
      requires Valid()
      ensures kind == RegexItem(regex, Regexes(rules), name)
    {
      for i := 0 to |regexes|
        invariant RegexItem(regex, regexes[..i], name) == None
      {
        assert regexes[..i + 1][..i] == regexes[..i];
        if regex(regexes[i].name, name) != Fails {
          RegexItemStays(regex, regexes, i + 1, name);
          return Some(regexes[i].kind);
        }
      }
      assert regexes[..|regexes|] == regexes;
      return None;
    }
  }

  // ----- Matching, as the loops do it -----

  function SuffixMatches(rule: bytes, name: bytes): (r: bool)
    ensures r == MatchesSuffix(rule, name)
  {
    rule == name || (|rule| < |name| && name[|name| - |rule|..] == rule && name[|name| - |rule| - 1] == DOT)
  }

  method IndexOfDot(name: bytes) returns (f: nat)
    ensures f == FirstDot(name)
  {
    f := 0;
    while f < |name| && name[f] != DOT
      invariant f <= |name| && forall k :: 0 <= k < f ==> name[k] != DOT
    {
      f := f + 1;
    }
  }

  method Contains(name: bytes, needle: bytes) returns (found: bool)
    ensures found <==> Occurs(needle, name)
  {
    for i := 0 to |name| + 1
      invariant forall k :: 0 <= k < i ==> !OccursAt(needle, name, k)
    {
      if OccursAt(needle, name, i) {
        return true;
      }
    }
    return false;
  }

  lemma {:induction false} SuffixItemStays(items: seq<Item>, n: nat, name: bytes)
    requires n <= |items| && SuffixItem(items[..n], name).Some?
    ensures SuffixItem(items, name) == SuffixItem(items[..n], name)
  {
    if n < |items| {
      assert items[..|items| - 1][..n] == items[..n];
      SuffixItemStays(items[..|items| - 1], n, name);
    } else {
      assert items[..n] == items;
    }
  }

  lemma {:induction false} PrefixItemStays(items: seq<Item>, n: nat, name: bytes)
    requires n <= |items| && PrefixItem(items[..n], name).Some?
    ensures PrefixItem(items, name) == PrefixItem(items[..n], name)
  {
    if n < |items| {
      assert items[..|items| - 1][..n] == items[..n];
      PrefixItemStays(items[..|items| - 1], n, name);
    } else {
      assert items[..n] == items;
    }
  }

  lemma {:induction false} OneMoreMiddle(items: seq<Item>, i: nat, name: bytes)
    requires i < |items| && MiddleItem(items[..i], name) == None
    ensures MiddleItem(items[..i + 1], name) ==
            if Occurs(CString(items[i].name), name) then Some(items[i].kind) else None
  {
    hide Occurs, CString;
    assert items[..i + 1][..i] == items[..i];
  }

  lemma {:induction false} MiddleItemStays(items: seq<Item>, n: nat, name: bytes)
    requires n <= |items| && MiddleItem(items[..n], name).Some?
    ensures MiddleItem(items, name) == MiddleItem(items[..n], name)
  {
    hide Occurs;
    if n < |items| {
      assert items[..|items| - 1][..n] == items[..n];
      MiddleItemStays(items[..|items| - 1], n, name);
    } else {
      assert items[..n] == items;
    }
  }

  lemma {:induction false} RegexItemStays(regex: Regex, items: seq<Item>, n: nat, name: bytes)
    requires n <= |items| && RegexItem(regex, items[..n], name).Some?
    ensures RegexItem(regex, items, name) == RegexItem(regex, items[..n], name)
  {
    if n < |items| {
      assert items[..|items| - 1][..n] == items[..n];
      RegexItemStays(regex, items[..|items| - 1], n, name);
    } else {
      assert items[..n] == items;
    }
  }

  lemma {:induction false} PrefixKeyExists(low: bytes)
    requires |low| > 2 && low[|low| - 2..] == [DOT, STAR]
    ensures PrefixKey(low) != []
  {
    assert low[|low| - 2] == DOT;
    assert FirstDot(low) < |low|;
  }

  lemma {:induction false} LowerHasNoNul(s: bytes)
    requires 0 !in s
    ensures 0 !in Lower(s)
  {
    forall i | 0 <= i < |s| ensures Lower(s)[i] != 0 {
      assert s[i] in s;
    }
  }
}

/** What filter rules are written like, what they match and which of them decides, in terms of text alone. */
module FilterOutcomes {
  import opened Bytes
  import opened Names
  import opened FilterRules
  import opened FilterKeys
  import opened FilterResults

  // ----- Domain names -----

  /** A letter, a digit, a hyphen or an underscore. */
  predicate HostByte(c: byte) {
    48 <= c <= 57 || 65 <= c <= 90 || 97 <= c <= 122 || c == 45 || c == 95
  }

  predicate DomainLabel(s: bytes) {
    1 <= |s| <= 63 && s[0] != 45 && forall i :: 0 <= i < |s| ==> HostByte(s[i])
  }

  predicate DomainLabels(labels: seq<bytes>) {
    labels != [] && forall i :: 0 <= i < |labels| ==> DomainLabel(labels[i])
  }

  function Dotted(labels: seq<bytes>): bytes
    requires labels != []
  {
    if |labels| == 1 then labels[0] else labels[0] + [46] + Dotted(labels[1..])
  }

  ghost predicate IsDotted(s: bytes, labels: seq<bytes>) {
    DomainLabels(labels) && s == Dotted(labels) && |s| <= 253
  }

  ghost predicate IsDottedWithDot(s: bytes, labels: seq<bytes>) {
    s != [] && s[|s| - 1] == 46 && IsDotted(s[..|s| - 1], labels)
  }

  lemma {:induction false} HostBytesExactly(c: byte)
    ensures DomainByte(c) <==> HostByte(c)
  {
  }

  lemma {:induction false} LoneLabel(v: bytes)
    requires DOT !in v
    ensures ValidLabels(v) <==> DomainLabel(v)
  {
    if DomainLabel(v) {
      assert forall i :: 0 <= i < |v| && StartsLabel(v, i) ==> i == 0;
    }
    if ValidLabels(v) {
      assert StartsLabel(v, 0);
      assert |v| >= 64 ==> DotWithin(v, 0, 64);
    }
  }

  lemma {:induction false} HeadIsLabel(first: bytes, rest: bytes, v: bytes)
    requires DOT !in first && v == first + [DOT] + rest && ValidLabels(v)
    ensures DomainLabel(first)
  {
    hide DomainByte;
    assert StartsLabel(v, 0);
    assert v[|first|] == DOT;
    forall i | 0 <= i < |first| ensures HostByte(first[i]) {
      assert v[i] == first[i] && first[i] in first;
      HostBytesExactly(v[i]);
    }
    if |v| >= 64 {
      assert forall i :: 0 <= i < |first| ==> v[i] == first[i] && first[i] in first;
      var j := DotSoon(v, 0);
    }
  }

  lemma {:induction false} DotSoon(v: bytes, i: nat) returns (j: nat)
    requires ValidLabels(v) && i + 64 <= |v|
    ensures i <= j < i + 64 && j < |v| && v[j] == DOT
  {
    assert DotWithin(v, i, 64);
    j :| i <= j < i + 64 && j < |v| && v[j] == DOT;
  }

  lemma {:induction false} IndexInTail(first: bytes, rest: bytes, v: bytes)
    requires v == first + [DOT] + rest
    ensures |v| == |first| + 1 + |rest| && v[|first|] == DOT
    ensures forall i :: 0 <= i < |first| ==> v[i] == first[i]
    ensures forall i :: 0 <= i < |rest| ==> v[|first| + 1 + i] == rest[i]
  {
  }

  lemma {:induction false} LabelStartOf(v: bytes, i: nat)
    requires ValidLabels(v) && i < |v| && StartsLabel(v, i)
    ensures v[i] != DOT && v[i] != HYPHEN
  {
  }

  lemma {:induction false} BytesOf(v: bytes, i: nat)
    requires ValidLabels(v) && i < |v|
    ensures v[i] == DOT || DomainByte(v[i])
  {
  }

  lemma {:induction false} AreValidLabels(v: bytes)
    requires 0 < |v| <= 253 && v[|v| - 1] != DOT
    requires forall i :: 0 <= i < |v| ==> v[i] == DOT || DomainByte(v[i])
    requires forall i :: 0 <= i < |v| && StartsLabel(v, i) ==> v[i] != DOT && v[i] != HYPHEN
    requires forall i :: 0 <= i && i + 64 <= |v| ==> DotWithin(v, i, 64)
    ensures ValidLabels(v)
  {
  }

  lemma {:induction false} LabelStartOfTail(first: bytes, rest: bytes, v: bytes, i: nat)
    requires v == first + [DOT] + rest && ValidLabels(v) && i < |rest| && StartsLabel(rest, i)
    ensures rest[i] != DOT && rest[i] != HYPHEN
  {
    hide DomainByte, ValidLabels;
    IndexInTail(first, rest, v);
    LabelStartOf(v, |first| + 1 + i);
  }

  lemma {:induction false} DotInTail(first: bytes, rest: bytes, v: bytes, i: nat)
    requires v == first + [DOT] + rest && ValidLabels(v) && i + 64 <= |rest|
    ensures DotWithin(rest, i, 64)
  {
    hide DomainByte, ValidLabels;
    IndexInTail(first, rest, v);
    var j := DotSoon(v, |first| + 1 + i);
    assert rest[j - |first| - 1] == DOT;
  }

  lemma {:induction false} TailIsValid(first: bytes, rest: bytes, v: bytes)
    requires v == first + [DOT] + rest && ValidLabels(v)
    ensures ValidLabels(rest)
  {
    hide DomainByte, ValidLabels, DotWithin, StartsLabel;
    IndexInTail(first, rest, v);
    EndsInLabel(v);
    assert rest != [];
    forall i | 0 <= i < |rest| ensures rest[i] == DOT || DomainByte(rest[i]) {
      BytesOf(v, |first| + 1 + i);
    }
    forall i | 0 <= i < |rest| && StartsLabel(rest, i) ensures rest[i] != DOT && rest[i] != HYPHEN {
      LabelStartOfTail(first, rest, v, i);
    }
    forall i | 0 <= i && i + 64 <= |rest| ensures DotWithin(rest, i, 64) {
      DotInTail(first, rest, v, i);
    }
    AreValidLabels(rest);
  }

  lemma {:induction false} BytesOfJoin(first: bytes, rest: bytes, v: bytes, i: nat)
    requires DomainLabel(first) && ValidLabels(rest) && v == first + [DOT] + rest && i < |v|
    ensures v[i] == DOT || DomainByte(v[i])
  {
    hide DomainByte, ValidLabels;
    IndexInTail(first, rest, v);
    if i < |first| {
      HostBytesExactly(v[i]);
    } else if i > |first| {
      BytesOf(rest, i - |first| - 1);
    }
  }

  lemma {:induction false} LabelStartOfJoin(first: bytes, rest: bytes, v: bytes, i: nat)
    requires DomainLabel(first) && ValidLabels(rest) && v == first + [DOT] + rest && i < |v| && StartsLabel(v, i)
    ensures v[i] != DOT && v[i] != HYPHEN
  {
    hide DomainByte, ValidLabels;
    var n := |first| + 1;
    IndexInTail(first, rest, v);
    NoDot(first);
    assert forall i :: 0 <= i < |first| ==> v[i] == first[i] && first[i] in first;
    if i >= n {
      LabelStartOf(rest, i - n);
    }
  }

  lemma {:induction false} DotInJoin(first: bytes, rest: bytes, v: bytes, i: nat)
    requires DomainLabel(first) && ValidLabels(rest) && v == first + [DOT] + rest && i + 64 <= |v|
    ensures DotWithin(v, i, 64)
  {
    hide DomainByte, ValidLabels;
    var n := |first| + 1;
    IndexInTail(first, rest, v);
    if i >= n {
      var j := DotSoon(rest, i - n);
      assert v[n + j] == DOT;
    } else {
      assert v[n - 1] == DOT;
    }
  }

  lemma {:induction false} JoinIsValid(first: bytes, rest: bytes, v: bytes)
    requires DomainLabel(first) && ValidLabels(rest) && v == first + [DOT] + rest && |v| <= 253
    ensures ValidLabels(v)
  {
    hide DomainByte, ValidLabels, DomainLabel, DotWithin, StartsLabel;
    IndexInTail(first, rest, v);
    EndsInLabel(rest);
    forall i | 0 <= i < |v| ensures v[i] == DOT || DomainByte(v[i]) {
      BytesOfJoin(first, rest, v, i);
    }
    forall i | 0 <= i < |v| && StartsLabel(v, i) ensures v[i] != DOT && v[i] != HYPHEN {
      LabelStartOfJoin(first, rest, v, i);
    }
    forall i | 0 <= i && i + 64 <= |v| ensures DotWithin(v, i, 64) {
      DotInJoin(first, rest, v, i);
    }
    AreValidLabels(v);
  }

  lemma {:induction false} LabelsAreValid(labels: seq<bytes>)
    requires DomainLabels(labels) && |Dotted(labels)| <= 253
    ensures ValidLabels(Dotted(labels))
  {
    hide ValidLabels;
    if |labels| == 1 {
      assert labels[0] == Dotted(labels);
      NoDot(labels[0]);
      LoneLabel(labels[0]);
    } else {
      LabelsAreValid(labels[1..]);
      JoinIsValid(labels[0], Dotted(labels[1..]), Dotted(labels));
    }
  }

  lemma {:induction false} NoDot(s: bytes)
    requires DomainLabel(s)
    ensures DOT !in s
  {
  }

  lemma {:induction false} ValidAreLabels(v: bytes) returns (labels: seq<bytes>)
    requires ValidLabels(v)
    ensures DomainLabels(labels) && v == Dotted(labels)
    decreases |v|
  {
    hide ValidLabels, DomainLabel;
    var d := FirstDot(v);
    var first := v[..d];
    assert DOT !in first;
    if d == |v| {
      LoneLabel(v);
      labels := [v];
    } else {
      var rest := v[d + 1..];
      assert v == first + [DOT] + rest;
      HeadIsLabel(first, rest, v);
      TailIsValid(first, rest, v);
      var more := ValidAreLabels(rest);
      labels := [first] + more;
      assert labels[1..] == more;
    }
  }

  /**
    * A domain name is the root's dot, or labels of 1 to 63 letters, digits, hyphens and underscores that
    * do not start with a hyphen, joined by dots, at most 253 octets in all, with or without a final dot.
    */
  lemma {:induction false} DomainsExactly(s: bytes)
    ensures ValidDomain(s) <==>
            s == [46] || (exists labels :: IsDotted(s, labels))
            || exists labels :: IsDottedWithDot(s, labels)
  {
    hide ValidLabels, Dotted, DomainLabels;
    if s != [DOT] {
      var v := WithoutFinalDot(s);
      ValidExactly(v);
      if s != [] && s[|s| - 1] == DOT {
        assert forall labels :: IsDottedWithDot(s, labels) <==> IsDotted(v, labels);
        forall labels ensures !IsDotted(s, labels) {
          if IsDotted(s, labels) {
            LabelsAreValid(labels);
            EndsInLabel(s);
          }
        }
      }
    }
  }

  lemma {:induction false} EndsInLabel(v: bytes)
    requires ValidLabels(v)
    ensures 0 < |v| <= 253 && v[|v| - 1] != DOT
  {
  }

  lemma {:induction false} ValidExactly(v: bytes)
    ensures ValidLabels(v) <==> exists labels :: IsDotted(v, labels)
  {
    hide ValidLabels, Dotted, DomainLabels;
    if ValidLabels(v) {
      EndsInLabel(v);
      var labels := ValidAreLabels(v);
      assert IsDotted(v, labels);
    }
    forall labels | IsDotted(v, labels) ensures ValidLabels(v) {
      LabelsAreValid(labels);
    }
  }

  // ----- What a rule is written like -----

  /** Rules that are refused whatever they say. */
  lemma {:induction false} RefusedAtOnce(entries: nat, regexes: nat, text: bytes, kind: Kind, compiles: bool)
    ensures var c := Classify(entries, regexes, text, kind, compiles);
      && (text == [] <==> c == Refused(EmptyRule))
      && (text != [] && entries >= 100000 <==> c == Refused(TooManyRules))
      && (text != [] && entries < 100000 && |text| > 4096 <==> c == Refused(RuleTooLong))
  {
  }

  predicate Considered(entries: nat, text: bytes) {
    text != [] && entries < 100000 && |text| <= 4096
  }

  /** Between slashes there is a regular expression, taken as it is; at most 256 are. */
  lemma {:induction false} RegexRules(entries: nat, regexes: nat, text: bytes, kind: Kind, compiles: bool, re: bytes)
    requires Considered(entries, text) && text == [47] + re + [47]
    ensures Classify(entries, regexes, text, kind, compiles) ==
            if re == [] then Refused(EmptyRegex)
            else if regexes >= 256 then Refused(TooManyRegexes)
            else if compiles then Accepted(RegexRule(re, kind)) else Refused(BadRegex)
  {
    assert text[0] == 47 && text[|text| - 1] == 47 && text[1..|text| - 1] == re;
  }

  /** Between stars there is text that may occur anywhere, compared without regard to case. */
  lemma {:induction false} MiddleRules(entries: nat, regexes: nat, text: bytes, kind: Kind, compiles: bool, mid: bytes)
    requires Considered(entries, text) && text == [42] + mid + [42]
    ensures Classify(entries, regexes, text, kind, compiles) ==
            if mid == [] then Refused(EmptyMiddle) else Accepted(MiddleRule(Lower(mid), kind))
  {
    var low := Lower(text);
    assert text[0] == 42 && text[|text| - 1] == 42;
    assert forall i :: 0 <= i < |mid| ==> text[i + 1] == mid[i];
    assert low[1..|low| - 1] == Lower(mid);
  }

  /** In front of a dot and a star there is the start of a name. */
  lemma {:induction false} PrefixRules(entries: nat, regexes: nat, text: bytes, kind: Kind, compiles: bool, name: bytes)
    requires Considered(entries, text) && text == name + [46, 42] && name != [] && name[0] != 42
    ensures Classify(entries, regexes, text, kind, compiles) ==
            if ValidDomain(Lower(name)) then Accepted(PrefixRule(Lower(name) + [46, 42], Lower(name), kind))
            else Refused(BadPrefix)
  {
    hide ValidDomain;
    var low := Lower(text);
    assert text[0] == name[0] && text[|text| - 1] == 42;
    assert low[|low| - 2..] == [46, 42];
    assert low[..|low| - 2] == Lower(name);
    assert low == Lower(name) + [46, 42];
  }

  predicate Between(text: bytes, c: byte) {
    |text| >= 2 && text[0] == c && text[|text| - 1] == c
  }

  predicate ShortOfStar(text: bytes) {
    |text| > 2 && text[|text| - 2..] == [46, 42]
  }

  /** What stands behind a star and a dot at the start, or everything. */
  function Stem(text: bytes): bytes {
    if [42, 46] <= text then text[2..] else text
  }

  /** Everything else is the end of a name, perhaps behind a star and a dot; the root alone is not taken. */
  lemma {:induction false} SuffixRules(entries: nat, regexes: nat, text: bytes, kind: Kind, compiles: bool)
    requires Considered(entries, text)
    requires !Between(text, 47) && !Between(text, 42) && !ShortOfStar(text)
    ensures Classify(entries, regexes, text, kind, compiles) ==
            if ValidDomain(Lower(Stem(text))) && Stem(text) != [46]
            then Accepted(SuffixRule(Lower(text), Lower(Stem(text)), kind)) else Refused(BadDomain)
  {
    hide ValidDomain, SuffixKey;
    var low := Lower(text);
    ShapesOfLower(text);
    StemIsLower(text);
    if ValidDomain(SuffixName(low)) {
      KeyIsThere(low);
    }
  }

  lemma {:induction false} ShapesOfLower(text: bytes)
    ensures Between(Lower(text), 47) <==> Between(text, 47)
    ensures Between(Lower(text), 42) <==> Between(text, 42)
    ensures ShortOfStar(Lower(text)) <==> ShortOfStar(text)
  {
    if |text| > 2 {
      EndsLikeLower(text, Lower(text), |text| - 2);
    }
  }

  lemma {:induction false} EndsLikeLower(text: bytes, low: bytes, n: nat)
    requires low == Lower(text) && n + 2 == |text|
    ensures text[n..] == [46, 42] <==> low[n..] == [46, 42]
  {
    assert text[n..] == [text[n], text[n + 1]] && low[n..] == [low[n], low[n + 1]];
  }

  lemma {:induction false} StemIsLower(text: bytes)
    ensures SuffixName(Lower(text)) == Lower(Stem(text))
    ensures Lower(Stem(text)) == [46] <==> Stem(text) == [46]
  {
    if |text| >= 2 {
      assert [42, 46] <= text <==> text[0] == 42 && text[1] == 46;
    }
    if Stem(text) != [] && |Stem(text)| == 1 {
      assert Lower(Stem(text))[0] == LowerByte(Stem(text)[0]);
    }
  }

  /** Every rule that is the end of a name has a key to be filed under, but for the root. */
  lemma {:induction false} KeyIsThere(pattern: bytes)
    requires ValidDomain(SuffixName(pattern))
    ensures SuffixKey(pattern) != [] <==> SuffixName(pattern) != [46]
  {
    hide ValidDomain, LastTwoLabels, SuffixKey;
    var name := SuffixName(pattern);
    NamesAreClean(name);
    if name == [DOT] {
      RootHasNoKey(pattern);
    } else {
      ValidEndsInText(name);
      StemEndsInText(pattern);
      LastTwoAreThere(pattern);
      KeyFollows(pattern);
    }
  }

  lemma {:induction false} KeyFollows(pattern: bytes)
    requires LastTwoLabels(pattern) != []
    ensures SuffixKey(pattern) != []
  {
  }

  lemma {:induction false} RootHasNoKey(pattern: bytes)
    requires SuffixName(pattern) == [DOT]
    ensures SuffixKey(pattern) == []
  {
    hide LastDot, EndsWith, LastTwoLabels;
    if pattern == [DOT] {
      LastDotIs(pattern, 0);
      LastDotIs(pattern[..0], -1);
      LastTwoAre(pattern, 0, -1);
    } else {
      assert pattern == [STAR, DOT, DOT];
      LastDotIs(pattern, 2);
      LastDotIs(pattern[..2], 1);
      LastTwoAre(pattern, 2, 1);
    }
    EmptyKey(pattern);
  }

  lemma {:induction false} EmptyKey(pattern: bytes)
    requires LastTwoLabels(pattern) == []
    ensures SuffixKey(pattern) == []
  {
    hide LastTwoLabels;
  }

  predicate EndsInText(s: bytes) {
    s != [] && (s[|s| - 1] == DOT ==> |s| > 1 && s[|s| - 2] != DOT)
  }

  lemma {:induction false} ValidEndsInText(name: bytes)
    requires ValidDomain(name) && name != [DOT]
    ensures EndsInText(name)
  {
    hide ValidLabels;
    EndsInLabel(WithoutFinalDot(name));
  }

  lemma {:induction false} StemEndsInText(pattern: bytes)
    requires EndsInText(SuffixName(pattern))
    ensures EndsInText(pattern)
  {
  }

  lemma {:induction false} LastTwoAreThere(pattern: bytes)
    requires EndsInText(pattern)
    ensures LastTwoLabels(pattern) != []
  {
    hide LastDot;
    var d := LastDot(pattern);
    if d == |pattern| - 1 {
      var front := pattern[..d];
      assert front != [] && front[d - 1] != DOT;
      assert LastDot(front) < d - 1;
    }
  }

  // ----- What a rule matches -----

  /** A name ends in a rule on a label boundary, or is the rule. */
  lemma {:induction false} SuffixesMatch(rule: bytes, name: bytes)
    ensures MatchesSuffix(rule, name) <==> name == rule || exists p: bytes :: name == p + [46] + rule
  {
    if MatchesSuffix(rule, name) && name != rule {
      SplitMatch(rule, name);
    }
    forall p: bytes | name == p + [46] + rule ensures MatchesSuffix(rule, name) {
      JoinMatches(p, rule);
    }
  }

  /** A name starts with a rule on a label boundary, or is the rule. */
  lemma {:induction false} PrefixesMatch(rule: bytes, name: bytes)
    ensures MatchesPrefix(rule, name) <==> name == rule || exists q: bytes :: name == rule + [46] + q
  {
    if MatchesPrefix(rule, name) && name != rule {
      assert name == rule + [46] + name[|rule| + 1..];
    }
    forall q: bytes | name == rule + [46] + q ensures MatchesPrefix(rule, name) {
      assert name == rule + ([46] + q);
    }
  }

  ghost predicate Surrounds(name: bytes, before: bytes, mid: bytes, behind: bytes) {
    name == before + mid + behind
  }

  lemma {:induction false} MiddlesMatch(mid: bytes, name: bytes)
    ensures Occurs(mid, name) <==> exists p, q :: Surrounds(name, p, mid, q)
  {
    if Occurs(mid, name) {
      var i :| 0 <= i <= |name| && OccursAt(mid, name, i);
      assert name == name[..i] + name[i..i + |mid|] + name[i + |mid|..];
      assert Surrounds(name, name[..i], mid, name[i + |mid|..]);
    }
    forall p, q | Surrounds(name, p, mid, q) ensures Occurs(mid, name) {
      assert OccursAt(mid, name, |p|);
    }
  }

  // ----- Which rule decides -----

  /** The answer is the kind of the oldest rule that hits, and none if no rule does. */
  ghost predicate Oldest(rules: seq<Rule>, hits: Rule -> bool, answer: Option<Kind>) {
    match answer
    case None => forall i :: 0 <= i < |rules| ==> !hits(rules[i])
    case Some(kind) => exists i :: OldestAt(rules, hits, i) && rules[i].kind == kind
  }

  ghost predicate OldestAt(rules: seq<Rule>, hits: Rule -> bool, i: int) {
    0 <= i < |rules| && hits(rules[i]) && forall j :: 0 <= j < i ==> !hits(rules[j])
  }

  lemma {:induction false} OneMoreRule(rules: seq<Rule>, hits: Rule -> bool, before: Option<Kind>, answer: Option<Kind>)
    requires rules != [] && Oldest(rules[..|rules| - 1], hits, before)
    requires answer == Or(before, if hits(rules[|rules| - 1]) then Some(rules[|rules| - 1].kind) else None)
    ensures Oldest(rules, hits, answer)
  {
    var n := |rules| - 1;
    if before.Some? {
      var i :| OldestAt(rules[..n], hits, i) && rules[..n][i].kind == before.value;
      assert OldestAt(rules, hits, i);
    } else {
      assert forall j :: 0 <= j < n ==> rules[j] == rules[..n][j];
      if hits(rules[n]) {
        assert OldestAt(rules, hits, n);
      }
    }
  }

  function SuffixHits(name: bytes): Rule -> bool {
    (r: Rule) => r.SuffixRule? && MatchesSuffix(r.name, name)
  }

  /** Only names of two labels or more are matched by how they start. */
  function PrefixHits(name: bytes): Rule -> bool {
    (r: Rule) => r.PrefixRule? && 46 in name && MatchesPrefix(r.name, name)
  }

  function MiddleHits(name: bytes): Rule -> bool {
    (r: Rule) => r.MiddleRule? && Occurs(CString(r.name), name)
  }

  /** An expression that the library gives up on counts as matching. */
  function RegexHits(regex: Regex, name: bytes): Rule -> bool {
    (r: Rule) => r.RegexRule? && (regex(r.expression, name) == Matches || regex(r.expression, name) == GivesUp)
  }

  lemma {:induction false} SuffixDecides(rules: seq<Rule>, name: bytes)
    ensures Oldest(rules, SuffixHits(name), FirstSuffix(rules, name))
  {
    hide MatchesSuffix, Oldest;
    if rules == [] {
      NoneAreOldest(SuffixHits(name));
    } else {
      SuffixDecides(rules[..|rules| - 1], name);
      OneMoreRule(rules, SuffixHits(name), FirstSuffix(rules[..|rules| - 1], name), FirstSuffix(rules, name));
    }
  }

  lemma {:induction false} NoneAreOldest(hits: Rule -> bool)
    ensures Oldest([], hits, None)
  {
  }

  lemma {:induction false} PrefixDecides(rules: seq<Rule>, name: bytes)
    ensures Oldest(rules, PrefixHits(name), FirstPrefix(rules, name))
  {
    hide MatchesPrefix, Oldest;
    if rules == [] {
      NoneAreOldest(PrefixHits(name));
    } else {
      PrefixDecides(rules[..|rules| - 1], name);
      OneMoreRule(rules, PrefixHits(name), FirstPrefix(rules[..|rules| - 1], name), FirstPrefix(rules, name));
    }
  }

  lemma {:induction false} MiddleDecides(rules: seq<Rule>, name: bytes)
    ensures Oldest(rules, MiddleHits(name), FirstMiddle(rules, name))
  {
    hide Occurs, Oldest;
    if rules == [] {
      NoneAreOldest(MiddleHits(name));
    } else {
      MiddleDecides(rules[..|rules| - 1], name);
      OneMoreRule(rules, MiddleHits(name), FirstMiddle(rules[..|rules| - 1], name), FirstMiddle(rules, name));
    }
  }

  lemma {:induction false} RegexDecides(regex: Regex, rules: seq<Rule>, name: bytes)
    ensures Oldest(rules, RegexHits(regex, name), FirstRegex(regex, rules, name))
  {
    hide Oldest;
    if rules == [] {
      NoneAreOldest(RegexHits(regex, name));
    } else {
      RegexDecides(regex, rules[..|rules| - 1], name);
      OneMoreRule(rules, RegexHits(regex, name), FirstRegex(regex, rules[..|rules| - 1], name),
                  FirstRegex(regex, rules, name));
    }
  }

  function ReachHits(name: bytes): Rule -> bool {
    (r: Rule) => r.SuffixRule? && MatchesSuffix(r.name, name) && (Specific(r.name) || StarBefore(name, r.name))
  }

  /** What a lookup under the name's own key finds is the oldest rule that it reaches. */
  lemma {:induction false} ReachedDecides(rules: seq<Rule>, name: bytes)
    ensures Oldest(rules, ReachHits(name), FirstReached(rules, name))
  {
    hide MatchesSuffix, Specific, StarBefore, Oldest;
    if rules == [] {
      NoneAreOldest(ReachHits(name));
    } else {
      ReachedDecides(rules[..|rules| - 1], name);
      OneMoreRule(rules, ReachHits(name), FirstReached(rules[..|rules| - 1], name), FirstReached(rules, name));
    }
  }

  function OneInFrontHits(name: bytes): Rule -> bool {
    (r: Rule) => r.SuffixRule? && OneInFront(r.name, name)
  }

  lemma {:induction false} OneInFrontDecides(rules: seq<Rule>, name: bytes)
    ensures Oldest(rules, OneInFrontHits(name), FirstOneInFront(rules, name))
  {
    hide OneInFront, Oldest;
    if rules == [] {
      NoneAreOldest(OneInFrontHits(name));
    } else {
      OneInFrontDecides(rules[..|rules| - 1], name);
      OneMoreRule(rules, OneInFrontHits(name), FirstOneInFront(rules[..|rules| - 1], name),
                  FirstOneInFront(rules, name));
    }
  }

  /** One label, a dot and a rule of one label. */
  lemma {:induction false} OneInFrontExactly(rule: bytes, name: bytes)
    ensures OneInFront(rule, name) <==> 46 !in rule && exists l: bytes :: 46 !in l && name == l + [46] + rule
  {
    if OneInFront(rule, name) {
      StarredShape(name);
      assert 46 !in name[..FirstDot(name)];
    }
    forall l: bytes | 46 !in l && name == l + [46] + rule ensures FirstDot(name) == |l| && name[|l| + 1..] == rule {
      assert forall k :: 0 <= k < |l| ==> name[k] == l[k] && l[k] in l;
      FirstDotIs(name, |l|);
    }
  }

  /** No rule of this kind hits. */
  ghost predicate NoneHits(rules: seq<Rule>, hits: Rule -> bool) {
    Oldest(rules, hits, None)
  }

  lemma {:induction false} HitsDecide(rules: seq<Rule>, hits: Rule -> bool, answer: Option<Kind>)
    requires Oldest(rules, hits, answer)
    ensures answer.None? <==> NoneHits(rules, hits)
  {
    if answer.Some? {
      var i :| OldestAt(rules, hits, i) && rules[i].kind == answer.value;
      assert hits(rules[i]);
    }
  }

  /**
    * What the filter decides when every rule about ends of names has two labels or ends in lan or local:
    * the oldest such rule that matches, or else the oldest about starts, or else the oldest about text
    * in between, or else the oldest expression.
    */
  lemma {:induction false} FilterDecides(regex: Regex, rules: seq<Rule>, name: bytes)
    requires AllWellFormed(rules) && AllSpecific(rules)
    ensures var answer, p := Found(regex, rules, name), NoneHits;
      && (!p(rules, SuffixHits(name)) ==> answer.Some? && Oldest(rules, SuffixHits(name), answer))
      && (p(rules, SuffixHits(name)) && !p(rules, PrefixHits(name)) ==>
            answer.Some? && Oldest(rules, PrefixHits(name), answer))
      && (p(rules, SuffixHits(name)) && p(rules, PrefixHits(name)) && !p(rules, MiddleHits(name)) ==>
            answer.Some? && Oldest(rules, MiddleHits(name), answer))
      && (p(rules, SuffixHits(name)) && p(rules, PrefixHits(name)) && p(rules, MiddleHits(name)) ==>
            Oldest(rules, RegexHits(regex, name), answer))
  {
    hide Found, Oldest, NoneHits, FirstSuffix, FirstPrefix, FirstMiddle, FirstRegex;
    IndexAgreesWithScan(regex, rules, name);
    SuffixDecides(rules, name);
    HitsDecide(rules, SuffixHits(name), FirstSuffix(rules, name));
    PrefixDecides(rules, name);
    HitsDecide(rules, PrefixHits(name), FirstPrefix(rules, name));
    MiddleDecides(rules, name);
    HitsDecide(rules, MiddleHits(name), FirstMiddle(rules, name));
    RegexDecides(regex, rules, name);
  }
}

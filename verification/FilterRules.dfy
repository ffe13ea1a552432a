/** Filter rules for domain names, and what it means for one to match. */
module FilterRules {
  import opened Bytes
  import opened Names

  const STAR: byte := 42
  const SLASH: byte := 47
  const HYPHEN: byte := 45
  const UNDERSCORE: byte := 95
  const LAN: bytes := [108, 97, 110]
  const LOCAL: bytes := [108, 111, 99, 97, 108]

  const MAX_RULES := 100000
  const MAX_REGEX_RULES := 256
  const MAX_RULE_LENGTH := 4096

  datatype Kind = Nxdomain | Nodata | NodataAaaa

  /** `pattern` is the rule as it was given, in lower case; `name` the part that is matched. */
  datatype Rule =
    | SuffixRule(pattern: bytes, name: bytes, kind: Kind)
    | PrefixRule(pattern: bytes, name: bytes, kind: Kind)
    | MiddleRule(name: bytes, kind: Kind)
    | RegexRule(expression: bytes, kind: Kind)

  datatype RuleError =
    | EmptyRule | TooManyRules | RuleTooLong | EmptyRegex | TooManyRegexes | BadRegex
    | EmptyMiddle | BadPrefix | BadDomain

  datatype Classified = Accepted(rule: Rule) | Refused(error: RuleError)

  // ----- Domain names -----

  predicate IsAlnum(c: byte) {
    48 <= c <= 57 || 65 <= c <= 90 || 97 <= c <= 122
  }

  predicate DomainByte(c: byte) {
    IsAlnum(c) || c == HYPHEN || c == UNDERSCORE
  }

  predicate StartsLabel(v: bytes, i: nat)
    requires i < |v|
  {
    i == 0 || v[i - 1] == DOT
  }

  ghost predicate DotWithin(v: bytes, i: nat, n: nat) {
    exists j: nat :: i <= j < i + n && j < |v| && v[j] == DOT
  }

  /** Labels of 1 to 63 letters, digits, hyphens and underscores, none starting with a hyphen. */
  ghost predicate ValidLabels(v: bytes) {
    && 0 < |v| <= 253 && v[|v| - 1] != DOT
    && (forall i :: 0 <= i < |v| ==> v[i] == DOT || DomainByte(v[i]))
    && (forall i :: 0 <= i < |v| && StartsLabel(v, i) ==> v[i] != DOT && v[i] != HYPHEN)
    && (forall i :: 0 <= i && i + 64 <= |v| ==> DotWithin(v, i, 64))
  }

  function WithoutFinalDot(s: bytes): bytes {
    if s != [] && s[|s| - 1] == DOT then s[..|s| - 1] else s
  }

  ghost predicate ValidDomain(s: bytes) {
    s == [DOT] || ValidLabels(WithoutFinalDot(s))
  }

  // ----- Matching -----

  /** On label boundaries: the name itself, or something in front of a dot and the rule's name. */
  predicate MatchesSuffix(rule: bytes, name: bytes) {
    name == rule || (|rule| < |name| && name[|name| - |rule|..] == rule && name[|name| - |rule| - 1] == DOT)
  }

  predicate MatchesPrefix(rule: bytes, name: bytes) {
    rule <= name && (|rule| == |name| || name[|rule|] == DOT)
  }

  predicate OccursAt(needle: bytes, name: bytes, i: nat) {
    i + |needle| <= |name| && name[i..i + |needle|] == needle
  }

  predicate Occurs(needle: bytes, name: bytes) {
    exists i :: 0 <= i <= |name| && OccursAt(needle, name, i)
  }

  /** Matching a regular expression is left to a library, which may also give up. */
  datatype RegexOutcome = Matches | Fails | GivesUp

  type Regex = (bytes, bytes) -> RegexOutcome

  // ----- Keys -----

  function LastDot(s: bytes): (d: int)
    ensures -1 <= d < |s|
    ensures d >= 0 ==> s[d] == DOT
    ensures forall i :: d < i < |s| ==> s[i] != DOT
  {
    if s == [] then -1 else if s[|s| - 1] == DOT then |s| - 1 else LastDot(s[..|s| - 1])
  }

  /** The last two labels; a name of one label gets a star for the other. */
  function LastTwoLabels(name: bytes): bytes {
    var d := LastDot(name);
    if d == -1 then (if name == [] then [STAR] else [STAR, DOT] + name)
    else
      var e := LastDot(name[..d]);
      if d == |name| - 1 then name[e + 1..d] else name[e + 1..]
  }

  predicate EndsWith(s: bytes, t: bytes) {
    |t| <= |s| && s[|s| - |t|..] == t
  }

  /** Names under `lan` and `local` share one key each. */
  function SuffixKey(name: bytes): bytes {
    var key := LastTwoLabels(name);
    if EndsWith(key, [DOT] + LAN) then LAN
    else if EndsWith(key, [DOT] + LOCAL) then LOCAL
    else key
  }

  /** The first label with its dot, or nothing. */
  function PrefixKey(name: bytes): bytes {
    if FirstDot(name) < |name| then name[..FirstDot(name) + 1] else []
  }

  function Starred(name: bytes): bytes
    requires FirstDot(name) < |name|
  {
    [STAR] + name[FirstDot(name)..]
  }

  // ----- Reading a rule -----

  function SuffixName(pattern: bytes): bytes {
    if |pattern| >= 2 && pattern[0] == STAR && pattern[1] == DOT then pattern[2..] else pattern
  }

  ghost function Classify(entries: nat, regexes: nat, text: bytes, kind: Kind, compiles: bool): Classified {
    var low := Lower(text);
    if text == [] then Refused(EmptyRule)
    else if entries >= MAX_RULES then Refused(TooManyRules)
    else if |text| > MAX_RULE_LENGTH then Refused(RuleTooLong)
    else if |text| >= 2 && text[0] == SLASH && text[|text| - 1] == SLASH then
      if |text| == 2 then Refused(EmptyRegex)
      else if regexes >= MAX_REGEX_RULES then Refused(TooManyRegexes)
      else if compiles then Accepted(RegexRule(text[1..|text| - 1], kind))
      else Refused(BadRegex)
    else if |low| >= 2 && low[0] == STAR && low[|low| - 1] == STAR then
      if |low| == 2 then Refused(EmptyMiddle) else Accepted(MiddleRule(low[1..|low| - 1], kind))
    else if |low| > 2 && low[|low| - 2..] == [DOT, STAR] then
      if ValidDomain(low[..|low| - 2]) then Accepted(PrefixRule(low, low[..|low| - 2], kind)) else Refused(BadPrefix)
    else if ValidDomain(SuffixName(low)) && SuffixKey(low) != [] then Accepted(SuffixRule(low, SuffixName(low), kind))
    else Refused(BadDomain)
  }

  // ----- Scanning the rules in the order they were given -----

  function Or(first: Option<Kind>, second: Option<Kind>): Option<Kind> {
    if first.Some? then first else second
  }

  function FirstSuffix(rules: seq<Rule>, name: bytes): Option<Kind> {
    if rules == [] then None else
      var r := rules[|rules| - 1];
      Or(FirstSuffix(rules[..|rules| - 1], name),
         if r.SuffixRule? && MatchesSuffix(r.name, name) then Some(r.kind) else None)
  }

  function FirstPrefix(rules: seq<Rule>, name: bytes): Option<Kind> {
    if rules == [] then None else
      var r := rules[|rules| - 1];
      Or(FirstPrefix(rules[..|rules| - 1], name),
         if r.PrefixRule? && DOT in name && MatchesPrefix(r.name, name) then Some(r.kind) else None)
  }

  function FirstMiddle(rules: seq<Rule>, name: bytes): Option<Kind> {
    if rules == [] then None else
      var r := rules[|rules| - 1];
      Or(FirstMiddle(rules[..|rules| - 1], name),
         if r.MiddleRule? && Occurs(CString(r.name), name) then Some(r.kind) else None)
  }

  function FirstRegex(regex: Regex, rules: seq<Rule>, name: bytes): Option<Kind> {
    if rules == [] then None else
      var r := rules[|rules| - 1];
      Or(FirstRegex(regex, rules[..|rules| - 1], name),
         if r.RegexRule? && regex(r.expression, name) != Fails then Some(r.kind) else None)
  }

  /** Suffix rules first, then prefix, middle and regular-expression rules; the oldest match decides. */
  function Scan(regex: Regex, rules: seq<Rule>, name: bytes): Option<Kind> {
    Or(FirstSuffix(rules, name),
       Or(FirstPrefix(rules, name), Or(FirstMiddle(rules, name), FirstRegex(regex, rules, name))))
  }
}

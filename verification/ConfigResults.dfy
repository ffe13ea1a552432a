/** What a line of a configuration file means, and what the files it includes come to. */
module ConfigResults {
  import opened Bytes
  import opened ConfigLines

  // ----- White space -----

  /** Blank, tab, or one of the four octets up to CR. */
  predicate Blanks(s: bytes) {
    forall i :: 0 <= i < |s| ==> s[i] == 32 || 9 <= s[i] <= 13
  }

  /** Blanks that may stand inside a line. */
  predicate Gap(s: bytes) {
    forall i :: 0 <= i < |s| ==> s[i] == 32 || s[i] == 9
  }

  /** Neither starts nor ends with a blank. */
  predicate Bare(s: bytes) {
    s != [] ==> !Blanks([s[0]]) && !Blanks([s[|s| - 1]])
  }

  lemma {:induction false} TrimsLeft(a: bytes, s: bytes)
    requires Blanks(a) && (s != [] ==> !Blanks([s[0]]))
    ensures TrimmedLeft(a + s) == s
    decreases |a|
  {
    if a == [] {
      assert a + s == s;
      if s != [] {
        assert [s[0]][0] == s[0];
      }
    } else {
      assert (a + s)[1..] == a[1..] + s;
      TrimsLeft(a[1..], s);
    }
  }

  lemma {:induction false} TrimsRight(s: bytes, b: bytes)
    requires Blanks(b) && (s != [] ==> !Blanks([s[|s| - 1]]))
    ensures TrimmedRight(s + b) == s
    decreases |b|
  {
    if b == [] {
      assert s + b == s;
      if s != [] {
        assert [s[|s| - 1]][0] == s[|s| - 1];
      }
    } else {
      var t := s + b;
      assert t[..|t| - 1] == s + b[..|b| - 1];
      assert t[|t| - 1] == b[|b| - 1];
      TrimsRight(s, b[..|b| - 1]);
    }
  }

  lemma {:induction false} BlankBefore(a: bytes, b: bytes)
    requires Blanks(a) && Blanks(b)
    ensures TrimmedLeft(a + b) == []
  {
    assert a + b + [] == a + b;
    TrimsLeft(a + b, []);
  }

  /** Trimming takes the blanks off both ends and nothing else. */
  lemma {:induction false} Trims(a: bytes, s: bytes, b: bytes)
    requires Blanks(a) && Blanks(b) && Bare(s)
    ensures Trimmed(a + s + b) == s
  {
    hide TrimmedLeft, TrimmedRight;
    Concat(a, s, b);
    if s == [] {
      assert a + s + b == a + b;
      BlankBefore(a, b);
      TrimsRight(s, s);
      assert s + s == s;
    } else {
      assert (s + b)[0] == s[0];
      TrimsLeft(a, s + b);
      TrimsRight(s, b);
    }
  }

  lemma {:induction false} LastBare(s: bytes) returns (n: nat)
    ensures n <= |s| && Blanks(s[n..]) && (n > 0 ==> !Blanks([s[n - 1]]))
    decreases |s|
  {
    if s == [] {
      n := 0;
    } else if Blanks([s[|s| - 1]]) {
      n := LastBare(s[..|s| - 1]);
      assert s[n..] == s[..|s| - 1][n..] + [s[|s| - 1]];
      assert [s[|s| - 1]][0] == s[|s| - 1];
      if n > 0 {
        assert s[..|s| - 1][n - 1] == s[n - 1];
      }
    } else {
      n := |s|;
      assert s[n..] == [];
    }
  }

  // ----- Lines -----

  /** CR, LF and the two together end a line, and nothing else does. */
  lemma {:induction false} LinesExactly(line: bytes, rest: bytes)
    requires 10 !in line && 13 !in line
    ensures Lines(line) == [line]
    ensures Lines(line + [10] + rest) == [line] + Lines(rest)
    ensures Lines(line + [13, 10] + rest) == [line] + Lines(rest)
    ensures rest == [] || rest[0] != 10 ==> Lines(line + [13] + rest) == [line] + Lines(rest)
  {
    hide Lines;
    assert BreakFree(line);
    OneLine(line);
    SplitFirst(line, Lf, rest);
    SplitFirst(line, CrLf, rest);
    if rest == [] || rest[0] != 10 {
      SplitFirst(line, Cr, rest);
    }
  }

  // ----- Directives -----

  /** No control character but tab. */
  predicate Printable(s: bytes) {
    forall i :: 0 <= i < |s| ==> (s[i] >= 32 || s[i] == 9) && s[i] != 127
  }

  /** The word include. */
  const WORD: bytes := [105, 110, 99, 108, 117, 100, 101]

  /** Nothing, or a comment: a semicolon or a hash sign and whatever follows. */
  predicate Remark(s: bytes) {
    s == [] || s[0] == 59 || s[0] == 35
  }

  /** Whatever stands around a line is of no account. */
  lemma {:induction false} OuterBlanks(a: bytes, line: bytes, b: bytes)
    requires Blanks(a) && Blanks(b) && Bare(line)
    ensures ReadDirective(a + line + b) == ReadDirective(line)
  {
    hide Trimmed, ScanComment, PathOf;
    Trims(a, line, b);
    Trims([], line, []);
    assert [] + line + [] == line;
  }

  /** A line with a control character other than tab in it is an error, before anything else is. */
  lemma {:induction false} ControlsAreRefused(line: bytes)
    requires Bare(line)
    ensures ReadDirective(line) == Malformed(ControlCharacter) <==> !Printable(line)
  {
    hide Trimmed, ScanComment, PathOf;
    Trims([], line, []);
    assert [] + line + [] == line;
    NoControlPath(line);
  }

  lemma {:induction false} NoControlPath(line: bytes)
    ensures forall content :: PathOf(content) != Malformed(ControlCharacter)
  {
  }

  /** A printable line is an include directive exactly if it starts with that word and a blank. */
  lemma {:induction false} PlainExactly(line: bytes)
    requires Bare(line) && Printable(line)
    ensures ReadDirective(line) == Plain <==> !(|line| > 7 && line[..7] == WORD && Gap([line[7]]))
  {
    hide Trimmed, ScanComment;
    Trims([], line, []);
    assert [] + line + [] == line;
    forall i | 0 <= i < |line| ensures !IsControl(line[i]) {
    }
    if |line| > 7 {
      assert [line[7]][0] == line[7];
      assert line[7] >= 32 || line[7] == 9;
    }
    PathIsNotPlain();
  }

  lemma {:induction false} PathIsNotPlain()
    ensures forall content :: PathOf(content) != Plain
  {
  }

  lemma {:induction false} GapIsBlank(s: bytes)
    requires Gap(s)
    ensures Blanks(s)
  {
  }

  lemma {:induction false} EndsInGap(s: bytes, gap: bytes)
    ensures gap != [] && Gap(gap) ==> !Bare(s + gap)
  {
    if gap != [] && Gap(gap) {
      var t := s + gap;
      assert t[|t| - 1] == gap[|gap| - 1];
      assert [t[|t| - 1]][0] == gap[|gap| - 1];
    }
  }

  lemma {:induction false} IncludeLine(gap: bytes, rest: bytes)
    requires gap != [] && Gap(gap) && rest != [] && Bare(rest) && Printable(rest)
    ensures var line := WORD + gap + rest;
      && Bare(line) && Printable(line) && |line| > 7
      && line[..7] == WORD && line[7] == gap[0] && line[7..] == gap + rest
  {
    var line := WORD + gap + rest;
    assert line[0] == 105 && line[|line| - 1] == rest[|rest| - 1];
    assert [line[0]][0] == 105;
    forall i | 0 <= i < |line| ensures (line[i] >= 32 || line[i] == 9) && line[i] != 127 {
      if i < 7 {
        assert line[i] == WORD[i];
      } else if i < 7 + |gap| {
        assert line[i] == gap[i - 7];
      } else {
        assert line[i] == rest[i - 7 - |gap|];
      }
    }
  }

  lemma {:induction false} NothingControls(line: bytes)
    requires Printable(line)
    ensures forall i :: 0 <= i < |line| ==> !IsControl(line[i])
  {
  }

  lemma {:induction false} AlreadyTrimmed(s: bytes)
    requires Bare(s)
    ensures Trimmed(s) == s
  {
    hide Trimmed;
    Trims([], s, []);
    assert [] + s + [] == s;
  }

  /** What an include directive comes to once the word and the blanks around the rest are off. */
  lemma {:induction false} IncludeReads(gap: bytes, rest: bytes)
    requires gap != [] && Gap(gap) && rest != [] && Bare(rest) && Printable(rest)
    ensures ReadDirective(WORD + gap + rest) ==
      match ScanComment(rest, 0, 0)
      case Unclosed => Malformed(UnterminatedQuote)
      case Comment(at) => PathOf(Trimmed(rest[..at]))
      case Clean => PathOf(rest)
  {
    hide Trimmed, ScanComment, PathOf, Bare, Printable, IsControl;
    var line := WORD + gap + rest;
    IncludeLine(gap, rest);
    NothingControls(line);
    AlreadyTrimmed(line);
    AlreadyTrimmed(rest);
    GapIsBlank(gap);
    Trims(gap, rest, []);
    assert line[7..] == gap + rest + [];
  }

  /** Octets among which there is neither a quote nor the start of a comment are passed over. */
  lemma {:induction false} ScansOver(s: bytes, i: nat, j: nat)
    requires i <= j <= |s|
    requires forall k :: i <= k < j ==> s[k] != 34 && s[k] != 39 && s[k] != 59 && s[k] != 35
    ensures ScanComment(s, i, 0) == ScanComment(s, j, 0)
    decreases j - i
  {
    if i < j {
      ScansOver(s, i + 1, j);
    }
  }

  /** So is everything inside quotes. */
  lemma {:induction false} ScansQuoted(s: bytes, i: nat, j: nat, quote: byte)
    requires i <= j <= |s| && quote != 0
    requires forall k :: i <= k < j ==> s[k] != quote
    ensures ScanComment(s, i, quote) == ScanComment(s, j, quote)
    decreases j - i
  {
    if i < j {
      ScansQuoted(s, i + 1, j, quote);
    }
  }

  lemma {:induction false} ScanEnds(s: bytes, i: nat)
    requires i <= |s| && Remark(s[i..])
    ensures ScanComment(s, i, 0) == if i == |s| then Clean else Comment(i)
  {
    if i < |s| {
      assert s[i] == s[i..][0];
    }
  }

  lemma {:induction false} FindsFirst(s: bytes, c: byte, from: nat, i: nat)
    requires from <= i < |s| && s[i] == c && forall k :: from <= k < i ==> s[k] != c
    ensures IndexOf(s, c, from) == i
    decreases i - from
  {
    if from < i {
      FindsFirst(s, c, from + 1, i);
    }
  }

  /** The path stands in front of a gap and perhaps a comment, which are of no account. */
  lemma {:induction false} PathThenRemark(gap: bytes, path: bytes, space: bytes, remark: bytes)
    requires gap != [] && Gap(gap) && path != [] && Bare(path) && Printable(path) && Gap(space)
    requires Printable(remark) && Remark(remark) && Bare(path + space + remark)
    requires ScanComment(path + space + remark, 0, 0) ==
             if remark == [] then Clean else Comment(|path| + |space|)
    ensures ReadDirective(WORD + gap + (path + space + remark)) == PathOf(path)
  {
    hide Trimmed, ScanComment, PathOf, ReadDirective;
    var rest := path + space + remark;
    forall i | 0 <= i < |rest| ensures (rest[i] >= 32 || rest[i] == 9) && rest[i] != 127 {
      if i < |path| {
        assert rest[i] == path[i];
      } else if i < |path| + |space| {
        assert rest[i] == space[i - |path|];
      } else {
        assert rest[i] == remark[i - |path| - |space|];
      }
    }
    IncludeReads(gap, rest);
    GapIsBlank(space);
    if remark == [] {
      EndsInGap(path, space);
      assert rest == path + space;
      assert rest == path;
    } else {
      Trims([], path, space);
      assert rest[..|path| + |space|] == [] + path + space;
    }
  }

  /** A quoted path is taken as it stands between its quotes; the other kind of quote may occur in it. */
  lemma {:induction false} QuotedPath(gap: bytes, quote: byte, path: bytes, space: bytes, remark: bytes)
    requires gap != [] && Gap(gap) && (quote == 34 || quote == 39)
    requires path != [] && quote !in path && Printable(path) && Gap(space)
    requires Printable(remark) && Remark(remark) && Bare([quote] + path + [quote] + space + remark)
    ensures ReadDirective(WORD + gap + ([quote] + path + [quote] + space + remark)) == Include(path)
  {
    hide Trimmed, ScanComment, PathOf, ReadDirective;
    var quoted := [quote] + path + [quote];
    var s, n := quoted + space + remark, |path| + 1;
    assert s[0] == quote && s[n] == quote;
    forall k | 1 <= k < n ensures s[k] != quote {
      assert s[k] == path[k - 1];
    }
    ScanOpens(s, quote);
    ScansQuoted(s, 1, n, quote);
    ScanCloses(s, n, quote);
    forall k | n + 1 <= k < n + 1 + |space| ensures s[k] == 32 || s[k] == 9 {
      assert s[k] == space[k - n - 1];
    }
    ScansOver(s, n + 1, n + 1 + |space|);
    assert s[n + 1 + |space|..] == remark;
    ScanEnds(s, n + 1 + |space|);
    assert [quoted[0]][0] == quote && [quoted[|quoted| - 1]][0] == quote;
    assert Printable(quoted) by {
      forall i | 0 <= i < |quoted| ensures (quoted[i] >= 32 || quoted[i] == 9) && quoted[i] != 127 {
        if 0 < i < n { assert quoted[i] == path[i - 1]; }
      }
    }
    PathThenRemark(gap, quoted, space, remark);
    PathBetween(quote, path);
  }

  lemma {:induction false} ScanOpens(s: bytes, quote: byte)
    requires s != [] && s[0] == quote && (quote == 34 || quote == 39)
    ensures ScanComment(s, 0, 0) == ScanComment(s, 1, quote)
  {
  }

  lemma {:induction false} ScanCloses(s: bytes, i: nat, quote: byte)
    requires i < |s| && s[i] == quote && quote != 0
    ensures ScanComment(s, i, quote) == ScanComment(s, i + 1, 0)
  {
  }

  lemma {:induction false} PathBetween(quote: byte, path: bytes)
    requires (quote == 34 || quote == 39) && path != [] && quote !in path
    ensures PathOf([quote] + path + [quote]) == Include(path)
  {
    hide Trimmed, IndexOf;
    var quoted, n := [quote] + path + [quote], |path| + 1;
    forall k | 1 <= k < n ensures quoted[k] != quote {
      assert quoted[k] == path[k - 1];
    }
    FindsFirst(quoted, quote, 1, n);
    assert quoted[n + 1..] == [] && quoted[1..n] == path;
    var none: bytes := [];
    Trims(none, none, none);
    assert none + none + none == none;
  }

  /** What stands between the quotes is the path, and nothing may stand behind them. */
  lemma {:induction false} PathWithin(quote: byte, path: bytes, space: bytes, tail: bytes)
    requires (quote == 34 || quote == 39) && quote !in path && Gap(space) && Bare(tail)
    requires tail != [] || path == []
    ensures PathOf([quote] + path + [quote] + space + tail) == Malformed(if tail != [] then TextAfterPath else NoPath)
  {
    hide Trimmed, IndexOf;
    var content, n := [quote] + path + [quote] + space + tail, |path| + 1;
    assert content[0] == quote && content[n] == quote;
    forall k | 1 <= k < n ensures content[k] != quote {
      assert content[k] == path[k - 1];
    }
    FindsFirst(content, quote, 1, n);
    GapIsBlank(space);
    Trims(space, tail, []);
    assert content[n + 1..] == space + tail + [];
  }

  /** Text behind a closed quote is an error, and so is an empty path between quotes. */
  lemma {:induction false} QuotedOtherwise(gap: bytes, quote: byte, path: bytes, space: bytes, tail: bytes)
    requires gap != [] && Gap(gap) && (quote == 34 || quote == 39)
    requires quote !in path && Printable(path) && Gap(space) && Printable(tail) && Bare(tail)
    requires 34 !in tail && 39 !in tail && 59 !in tail && 35 !in tail
    requires tail == [] ==> path == [] && space == []
    ensures ReadDirective(WORD + gap + ([quote] + path + [quote] + space + tail))
            == Malformed(if tail != [] then TextAfterPath else NoPath)
  {
    hide Trimmed, ScanComment, PathOf, ReadDirective;
    var s, n := [quote] + path + [quote] + space + tail, |path| + 1;
    assert s[0] == quote && s[n] == quote;
    forall k | 1 <= k < n ensures s[k] != quote {
      assert s[k] == path[k - 1];
    }
    ScanOpens(s, quote);
    ScansQuoted(s, 1, n, quote);
    ScanCloses(s, n, quote);
    forall k | n + 1 <= k < |s| ensures s[k] != 34 && s[k] != 39 && s[k] != 59 && s[k] != 35 {
      if k < n + 1 + |space| {
        assert s[k] == space[k - n - 1];
      } else {
        assert s[k] == tail[k - n - 1 - |space|] && tail[k - n - 1 - |space|] in tail;
      }
    }
    ScansOver(s, n + 1, |s|);
    ScanEnds(s, |s|);
    QuotedIsPrintable(quote, path, space, tail);
    IncludeReads(gap, s);
    PathWithin(quote, path, space, tail);
  }

  lemma {:induction false} QuotedIsPrintable(quote: byte, path: bytes, space: bytes, tail: bytes)
    requires (quote == 34 || quote == 39) && Printable(path) && Gap(space) && Printable(tail) && Bare(tail)
    requires tail == [] ==> space == []
    ensures var s := [quote] + path + [quote] + space + tail; Printable(s) && Bare(s)
  {
    var s, n := [quote] + path + [quote] + space + tail, |path| + 1;
    forall i | 0 <= i < |s| ensures (s[i] >= 32 || s[i] == 9) && s[i] != 127 {
      if 0 < i < n {
        assert s[i] == path[i - 1];
      } else if n < i < n + 1 + |space| {
        assert s[i] == space[i - n - 1];
      } else if n < i {
        assert s[i] == tail[i - n - 1 - |space|];
      }
    }
    var last := s[|s| - 1];
    assert last == if tail == [] then quote else tail[|tail| - 1];
    assert [s[0]][0] == quote && [last][0] == last;
  }

  /** A path without quotes ends where a comment starts, or with the line. */
  lemma {:induction false} UnquotedPath(gap: bytes, path: bytes, space: bytes, remark: bytes)
    requires gap != [] && Gap(gap) && path != [] && Bare(path) && Printable(path) && Gap(space)
    requires 34 !in path && 39 !in path && 59 !in path && 35 !in path
    requires Printable(remark) && Remark(remark) && Bare(path + space + remark)
    ensures ReadDirective(WORD + gap + (path + space + remark)) == Include(path)
  {
    hide Trimmed, ScanComment, ReadDirective;
    var s, n := path + space + remark, |path| + |space|;
    forall k | 0 <= k < n ensures s[k] != 34 && s[k] != 39 && s[k] != 59 && s[k] != 35 {
      if k < |path| {
        assert s[k] == path[k] && path[k] in path;
      } else {
        assert s[k] == space[k - |path|];
      }
    }
    ScansOver(s, 0, n);
    assert s[n..] == remark;
    ScanEnds(s, n);
    PathThenRemark(gap, path, space, remark);
    assert path[0] in path;
  }

  /** A quote that is not closed is an error. */
  lemma {:induction false} UnclosedQuote(gap: bytes, quote: byte, rest: bytes)
    requires gap != [] && Gap(gap) && (quote == 34 || quote == 39)
    requires quote !in rest && Printable(rest) && Bare([quote] + rest)
    ensures ReadDirective(WORD + gap + ([quote] + rest)) == Malformed(UnterminatedQuote)
  {
    hide ScanComment, ReadDirective, PathOf, Trimmed;
    var s := [quote] + rest;
    forall k | 1 <= k < |s| ensures s[k] != quote {
      assert s[k] == rest[k - 1] && rest[k - 1] in rest;
    }
    ScanOpens(s, quote);
    ScansQuoted(s, 1, |s|, quote);
    ScanRunsOut(s, quote);
    assert Printable(s) by {
      forall i | 0 <= i < |s| ensures (s[i] >= 32 || s[i] == 9) && s[i] != 127 {
        if i > 0 { assert s[i] == rest[i - 1]; }
      }
    }
    IncludeReads(gap, s);
  }

  lemma {:induction false} ScanRunsOut(s: bytes, quote: byte)
    requires quote != 0
    ensures ScanComment(s, |s|, quote) == Unclosed
  {
  }

  // ----- Where a path leads -----

  lemma {:induction false} LastSlashIs(dir: bytes, file: bytes)
    requires 47 !in file
    ensures LastSlash(dir + [47] + file) == |dir|
    decreases |file|
  {
    var s := dir + [47] + file;
    if file != [] {
      assert s[|s| - 1] == file[|file| - 1] && file[|file| - 1] in file;
      assert s[..|s| - 1] == dir + [47] + file[..|file| - 1];
      LastSlashIs(dir, file[..|file| - 1]);
    }
  }

  /** A path that starts with a slash is taken as it is, any other from the directory of the including file. */
  lemma {:induction false} PathsAreLocated(dir: bytes, file: bytes, path: bytes)
    requires 47 !in file
    ensures Located(dir + [47] + file, path) == if path != [] && path[0] == 47 then path else dir + [47] + path
  {
    hide LastSlash;
    LastSlashIs(dir, file);
    var s := dir + [47] + file;
    assert s[..|dir| + 1] == dir + [47];
  }

  // ----- Expansions -----

  lemma {:induction false} ThenThen(a: Expansion, b: Expansion, c: Expansion)
    ensures Then(Then(a, b), c) == Then(a, Then(b, c))
    ensures Then(NOTHING, a) == a
  {
  }

  /** The expansion of some lines and more is that of the first, then that of the others. */
  lemma {:induction false} ExpandAppends(fs: FileSystem, stack: seq<bytes>, a: seq<bytes>, b: seq<bytes>)
    requires stack != []
    ensures Expand(fs, stack, a + b) == Then(Expand(fs, stack, a), Expand(fs, stack, b))
    decreases |a|
  {
    hide ReadDirective, OpenFile, Located, Lines;
    if a == [] {
      assert a + b == b;
      ThenThen(Expand(fs, stack, b), NOTHING, NOTHING);
    } else {
      assert (a + b)[0] == a[0] && (a + b)[1..] == a[1..] + b;
      ExpandAppends(fs, stack, a[1..], b);
      ExpandOne(fs, stack, a + b);
      ExpandOne(fs, stack, a);
      var first := ExpandFirst(fs, stack, a[0]);
      ThenThen(first, Expand(fs, stack, a[1..]), Expand(fs, stack, b));
    }
  }

  /** What one line comes to. */
  function ExpandFirst(fs: FileSystem, stack: seq<bytes>, line: bytes): Expansion
    requires stack != []
  {
    if |line| > 1048576 then Ends(LineTooLong)
    else match ReadDirective(line)
      case Plain => JustLine(line)
      case Malformed(e) => Ends(e)
      case Include(path) =>
        match OpenFile(fs, stack, Located(stack[|stack| - 1], path))
        case Denied(e) => Ends(e)
        case Opened(p) => Then(Takes(|fs.regular[p]|), Expand(fs, stack + [p], Lines(fs.regular[p])))
  }

  lemma {:induction false} ExpandOne(fs: FileSystem, stack: seq<bytes>, lines: seq<bytes>)
    requires stack != [] && lines != []
    ensures Expand(fs, stack, lines) == Then(ExpandFirst(fs, stack, lines[0]), Expand(fs, stack, lines[1..]))
  {
    hide ReadDirective, OpenFile, Located, Lines;
  }

  /** Lines of which none is a directive and none is longer than a mebibyte. */
  predicate AllPlain(lines: seq<bytes>) {
    forall i :: 0 <= i < |lines| ==> ReadDirective(lines[i]) == Plain && |lines[i]| <= 1048576
  }

  /** Lines without directives are what they are. */
  lemma {:induction false} PlainLinesStay(fs: FileSystem, stack: seq<bytes>, lines: seq<bytes>)
    requires stack != [] && AllPlain(lines)
    ensures Expand(fs, stack, lines) == Expansion(lines, None, 0, 0)
    decreases |lines|
  {
    hide ReadDirective;
    if lines != [] {
      PlainLinesStay(fs, stack, lines[1..]);
      assert [lines[0]] + lines[1..] == lines;
    }
  }

  /** Between plain lines an include directive is replaced by the lines of the file, themselves expanded. */
  lemma {:induction false} IncludesAreSpliced(fs: FileSystem, stack: seq<bytes>, before: seq<bytes>, line: bytes,
                                              path: bytes, p: bytes, after: seq<bytes>)
    requires stack != [] && AllPlain(before) && AllPlain(after)
    requires |line| <= 1048576 && ReadDirective(line) == Include(path)
    requires OpenFile(fs, stack, Located(stack[|stack| - 1], path)) == Opened(p)
    ensures var inner := Expand(fs, stack + [p], Lines(fs.regular[p]));
      var r := Expand(fs, stack, before + [line] + after);
      && r.error == inner.error
      && r.lines == before + inner.lines + (if inner.error.Some? then [] else after)
      && r.files == 1 + inner.files && r.octets == |fs.regular[p]| + inner.octets
  {
    hide ReadDirective, OpenFile, Located, Lines, Expand, AllPlain;
    ExpandAppends(fs, stack, before + [line], after);
    ExpandAppends(fs, stack, before, [line]);
    PlainLinesStay(fs, stack, before);
    PlainLinesStay(fs, stack, after);
    ExpandOne(fs, stack, [line]);
    assert [line][1..] == [];
    NothingExpands(fs, stack);
    var inner := Expand(fs, stack + [p], Lines(fs.regular[p]));
    Concat2(before, inner.lines, after);
  }

  lemma {:induction false} Concat2(a: seq<bytes>, b: seq<bytes>, c: seq<bytes>)
    ensures a + ([] + b + []) + c == a + b + c && a + ([] + b + []) == a + b + []
  {
    assert [] + b + [] == b;
    assert a + b == a + b + [];
  }

  lemma {:induction false} NothingExpands(fs: FileSystem, stack: seq<bytes>)
    requires stack != []
    ensures Expand(fs, stack, []) == NOTHING
  {
  }

  /** Whatever is included from where, no directive and no overlong line is left. */
  lemma {:induction false} ExpandedLinesArePlain(fs: FileSystem, stack: seq<bytes>, lines: seq<bytes>)
    requires stack != []
    ensures AllPlain(Expand(fs, stack, lines).lines)
    decreases if |stack| <= MAX_INCLUDE_DEPTH then MAX_INCLUDE_DEPTH - |stack| else 0, |lines|
  {
    hide ReadDirective, Located, Lines;
    if lines != [] {
      ExpandedLinesArePlain(fs, stack, lines[1..]);
      if |lines[0]| <= MAX_LINE_SIZE {
        match ReadDirective(lines[0]) {
          case Include(path) =>
            match OpenFile(fs, stack, Located(stack[|stack| - 1], path)) {
              case Opened(p) => ExpandedLinesArePlain(fs, stack + [p], Lines(fs.regular[p]));
              case Denied(_) =>
            }
          case _ =>
        }
      }
    }
  }

  /** Files are opened at most 16 deep and never from within themselves. */
  lemma {:induction false} OpeningExactly(fs: FileSystem, stack: seq<bytes>, path: bytes)
    ensures OpenFile(fs, stack, path).Opened? <==>
            && path != [] && path in fs.canonical && fs.canonical[path] in fs.regular
            && |stack| < 16 && fs.canonical[path] !in stack
    ensures OpenFile(fs, stack, path).Opened? ==> OpenFile(fs, stack, path).path == fs.canonical[path]
  {
  }
}

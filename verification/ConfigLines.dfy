/** The lines a configuration file and everything it includes come to. */
module ConfigLines {
  import opened Bytes

  const TAB: byte := 9
  const LF: byte := 10
  const CR: byte := 13
  const SPACE: byte := 32
  const DOUBLE_QUOTE: byte := 34
  const HASH: byte := 35
  const SINGLE_QUOTE: byte := 39
  const SLASH: byte := 47
  const SEMICOLON: byte := 59
  const INCLUDE: bytes := [105, 110, 99, 108, 117, 100, 101]

  const MAX_LINE_SIZE := 1024 * 1024
  const MAX_INCLUDE_DEPTH := 16

  // ----- Lines -----

  predicate IsBreak(c: byte) {
    c == CR || c == LF
  }

  /** The position of the first line break, or the length of the text when there is none. */
  function LineEnd(s: bytes): (i: nat)
    ensures i <= |s|
    ensures forall k :: 0 <= k < i ==> !IsBreak(s[k])
    ensures i < |s| ==> IsBreak(s[i])
  {
    if s == [] || IsBreak(s[0]) then 0 else 1 + LineEnd(s[1..])
  }

  /** Behind a CR, an LF belongs to the same line break. */
  function Skipped(s: bytes, afterCr: bool): (r: bytes)
    ensures |r| <= |s|
  {
    if afterCr && s != [] && s[0] == LF then s[1..] else s
  }

  /** The pieces between line breaks, of which there is always one more than there are breaks. */
  function Lines(s: bytes): (r: seq<bytes>)
    ensures |r| >= 1
    decreases |s|
  {
    var i := LineEnd(s);
    if i == |s| then [s] else [s[..i]] + Lines(Skipped(s[i + 1..], s[i] == CR))
  }

  // ----- Directives -----

  predicate IsSpace(c: byte) {
    c == SPACE || TAB <= c <= CR
  }

  function TrimmedLeft(s: bytes): (r: bytes)
    ensures |r| <= |s|
  {
    if s != [] && IsSpace(s[0]) then TrimmedLeft(s[1..]) else s
  }

  function TrimmedRight(s: bytes): (r: bytes)
    ensures |r| <= |s|
  {
    if s != [] && IsSpace(s[|s| - 1]) then TrimmedRight(s[..|s| - 1]) else s
  }

  function Trimmed(s: bytes): (r: bytes)
    ensures |r| <= |s|
  {
    TrimmedRight(TrimmedLeft(s))
  }

  predicate IsControl(c: byte) {
    (c < SPACE && c != TAB) || c == 127
  }

  predicate IsQuote(c: byte) {
    c == SINGLE_QUOTE || c == DOUBLE_QUOTE
  }

  datatype Scanned = Clean | Comment(at: nat) | Unclosed

  /** Looks for a comment outside quotes; `quote` is the quote one is inside of, or 0. */
  function ScanComment(s: bytes, i: nat, quote: byte): (r: Scanned)
    requires i <= |s|
    ensures r.Comment? ==> i <= r.at < |s|
    decreases |s| - i
  {
    if i == |s| then (if quote != 0 then Unclosed else Clean)
    else if quote != 0 then ScanComment(s, i + 1, if s[i] == quote then 0 else quote)
    else if IsQuote(s[i]) then ScanComment(s, i + 1, s[i])
    else if s[i] == SEMICOLON || s[i] == HASH then Comment(i)
    else ScanComment(s, i + 1, 0)
  }

  function IndexOf(s: bytes, c: byte, from: nat): (i: nat)
    requires from <= |s|
    ensures from <= i <= |s|
    ensures i < |s| ==> s[i] == c
    decreases |s| - from
  {
    if from == |s| || s[from] == c then from else IndexOf(s, c, from + 1)
  }

  datatype Error =
    | LineTooLong
    | ControlCharacter
    | UnterminatedQuote
    | NoPath
    | TextAfterPath
    | EmptyPath
    | NotFound
    | TooDeep
    | Cyclic
    | NotRegular
    | TooManyFiles
    | TooMuchInput
    | ReadError

  datatype Directive = Plain | Include(path: bytes) | Malformed(error: Error)

  function PathOf(content: bytes): Directive {
    if content == [] then Malformed(NoPath)
    else if IsQuote(content[0]) then
      var closing := IndexOf(content, content[0], 1);
      if closing == |content| then Malformed(UnterminatedQuote)
      else if Trimmed(content[closing + 1..]) != [] then Malformed(TextAfterPath)
      else if closing == 1 then Malformed(NoPath)
      else Include(content[1..closing])
    else Include(content)
  }

  function ReadDirective(line: bytes): Directive {
    var content := Trimmed(line);
    if exists i :: 0 <= i < |content| && IsControl(content[i]) then Malformed(ControlCharacter)
    else if |content| > 7 && content[..7] == INCLUDE && IsSpace(content[7]) then
      var rest := Trimmed(content[7..]);
      match ScanComment(rest, 0, 0)
      case Unclosed => Malformed(UnterminatedQuote)
      case Comment(at) => PathOf(Trimmed(rest[..at]))
      case Clean => PathOf(Trimmed(rest))
    else Plain
  }

  // ----- Files -----

  /** Canonical paths of the names there are, and contents of the regular files, by canonical path. */
  datatype FileSystem = FileSystem(canonical: map<bytes, bytes>, regular: map<bytes, bytes>)

  datatype Opening = Opened(path: bytes) | Denied(error: Error)

  function OpenFile(fs: FileSystem, stack: seq<bytes>, path: bytes): (r: Opening)
    ensures r.Opened? ==> r.path in fs.regular && |stack| < MAX_INCLUDE_DEPTH && r.path !in stack
  {
    if path == [] then Denied(EmptyPath)
    else if path !in fs.canonical then Denied(NotFound)
    else if |stack| >= MAX_INCLUDE_DEPTH then Denied(TooDeep)
    else if fs.canonical[path] in stack then Denied(Cyclic)
    else if fs.canonical[path] !in fs.regular then Denied(NotRegular)
    else Opened(fs.canonical[path])
  }

  function LastSlash(s: bytes): (i: int)
    ensures -1 <= i < |s|
  {
    if s == [] then -1 else if s[|s| - 1] == SLASH then |s| - 1 else LastSlash(s[..|s| - 1])
  }

  /** A relative path is taken from the directory of the file it stands in. */
  function Located(source: bytes, path: bytes): bytes {
    if path != [] && path[0] == SLASH then path else source[..LastSlash(source) + 1] + path
  }

  // ----- Expansion -----

  /** Some lines, perhaps an error behind them, and what it takes at most to get there: files opened, octets read. */
  datatype Expansion = Expansion(lines: seq<bytes>, error: Option<Error>, files: nat, octets: nat)

  const NOTHING := Expansion([], None, 0, 0)

  function JustLine(line: bytes): Expansion {
    Expansion([line], None, 0, 0)
  }

  function Ends(e: Error): Expansion {
    Expansion([], Some(e), 0, 0)
  }

  /** A file of this size is opened. */
  function Takes(size: nat): Expansion {
    Expansion([], None, 1, size)
  }

  /** First all of one text, and if that went well, all of another. */
  function Then(first: Expansion, second: Expansion): Expansion {
    if first.error.Some? then first
    else Expansion(first.lines + second.lines, second.error, first.files + second.files, first.octets + second.octets)
  }

  /** The lines with every include directive replaced by what it includes, as far as the first error. */
  function Expand(fs: FileSystem, stack: seq<bytes>, lines: seq<bytes>): Expansion
    requires stack != []
    decreases if |stack| <= MAX_INCLUDE_DEPTH then MAX_INCLUDE_DEPTH - |stack| else 0, |lines|
  {
    if lines == [] then NOTHING
    else if |lines[0]| > MAX_LINE_SIZE then Ends(LineTooLong)
    else match ReadDirective(lines[0])
      case Plain => Then(JustLine(lines[0]), Expand(fs, stack, lines[1..]))
      case Malformed(e) => Ends(e)
      case Include(path) =>
        match OpenFile(fs, stack, Located(stack[|stack| - 1], path))
        case Denied(e) => Ends(e)
        case Opened(p) =>
          var inner := Expand(fs, stack + [p], Lines(fs.regular[p]));
          Then(Then(Takes(|fs.regular[p]|), inner), Expand(fs, stack, lines[1..]))
  }

  /** A configuration, from its main file. */
  function Configuration(fs: FileSystem, path: bytes): Expansion {
    match OpenFile(fs, [], path)
    case Denied(e) => Ends(e)
    case Opened(p) => Then(Takes(|fs.regular[p]|), Expand(fs, [p], Lines(fs.regular[p])))
  }

  // ----- Text in parts -----

  /** Text without a break in front of some lines. */
  function Joined(line: bytes, lines: seq<bytes>): (r: seq<bytes>)
    requires lines != []
    ensures |r| == |lines|
  {
    [line + lines[0]] + lines[1..]
  }

  lemma {:induction false} LineEndIs(s: bytes, i: nat)
    requires i <= |s| && (forall k :: 0 <= k < i ==> !IsBreak(s[k])) && (i < |s| ==> IsBreak(s[i]))
    ensures LineEnd(s) == i
  {
  }

  lemma {:induction false} LinesAre(s: bytes)
    ensures var i := LineEnd(s);
            Lines(s) == if i == |s| then [s] else [s[..i]] + Lines(Skipped(s[i + 1..], s[i] == CR))
  {
  }

  lemma {:induction false} JoinedIndex(a: bytes, b: bytes, s: bytes, i: nat)
    requires s == a + b && i <= |b|
    ensures i < |b| ==> s[|a| + i] == b[i] && s[|a| + i + 1..] == b[i + 1..]
    ensures s[..|a| + i] == a + b[..i]
  {
  }

  lemma {:induction false} LineEndOfJoined(a: bytes, b: bytes)
    requires LineEnd(a) == |a|
    ensures LineEnd(a + b) == |a| + LineEnd(b)
  {
    hide LineEnd;
    var s, i := a + b, LineEnd(b);
    assert forall k :: 0 <= k < |a| + i ==> s[k] == if k < |a| then a[k] else b[k - |a|];
    LineEndIs(s, |a| + i);
  }

  lemma {:induction false} LinesOfJoined(a: bytes, b: bytes)
    requires LineEnd(a) == |a|
    ensures Lines(a + b) == Joined(a, Lines(b))
  {
    hide LineEnd, Lines, Skipped;
    LineEndOfJoined(a, b);
    LinesAre(a + b);
    LinesAre(b);
    JoinedIndex(a, b, a + b, LineEnd(b));
    if LineEnd(b) < |b| {
      JoinedCons(a, b[..LineEnd(b)], Lines(Skipped(b[LineEnd(b) + 1..], b[LineEnd(b)] == CR)));
    }
  }

  lemma {:induction false} JoinedCons(line: bytes, first: bytes, rest: seq<bytes>)
    ensures Joined(line, [first] + rest) == [line + first] + rest
  {
    assert ([first] + rest)[1..] == rest;
  }

  lemma {:induction false} JoinedTwice(a: bytes, b: bytes, lines: seq<bytes>)
    requires lines != []
    ensures Joined(a, Joined(b, lines)) == Joined(a + b, lines)
  {
    assert a + (b + lines[0]) == a + b + lines[0];
  }

  /** A break in the first part ends the first line. */
  lemma {:induction false} LinesAtBreak(a: bytes, b: bytes, i: nat)
    requires i == LineEnd(a) && i < |a|
    ensures Lines(a + b) == [a[..i]] + Lines(Skipped(a[i + 1..] + b, a[i] == CR))
  {
    hide LineEnd, Lines, Skipped;
    LineEndInFirst(a, b);
    LinesAre(a + b);
    CutInFirst(a, b, a + b, i);
  }

  lemma {:induction false} LineEndInFirst(a: bytes, b: bytes)
    requires LineEnd(a) < |a|
    ensures LineEnd(a + b) == LineEnd(a)
  {
    var s, i := a + b, LineEnd(a);
    forall k | 0 <= k <= i ensures s[k] == a[k] {}
    LineEndIs(s, i);
  }

  lemma {:induction false} CutInFirst(a: bytes, b: bytes, s: bytes, i: nat)
    requires s == a + b && i < |a|
    ensures s[i + 1..] == a[i + 1..] + b && s[..i] == a[..i] && s[i] == a[i]
  {
  }

  lemma {:induction false} SkippedInFirst(a: bytes, b: bytes, afterCr: bool)
    requires a != []
    ensures Skipped(a + b, afterCr) == Skipped(a, afterCr) + b
  {
    if afterCr && a[0] == LF {
      assert (a + b)[1..] == a[1..] + b;
    }
  }

  // ----- Splitting and joining -----

  datatype Break = Cr | Lf | CrLf

  function BreakBytes(b: Break): bytes {
    match b
    case Cr => [CR]
    case Lf => [LF]
    case CrLf => [CR, LF]
  }

  predicate BreakFree(s: bytes) {
    forall i :: 0 <= i < |s| ==> !IsBreak(s[i])
  }

  /** A text from its pieces and the breaks between them. */
  function Text(pieces: seq<bytes>, breaks: seq<Break>): bytes
    requires |pieces| == |breaks| + 1
  {
    if breaks == [] then pieces[0] else pieces[0] + BreakBytes(breaks[0]) + Text(pieces[1..], breaks[1..])
  }

  /** A bare CR must not stand where the text goes on with an LF, for the two would be one break. */
  predicate Unambiguous(pieces: seq<bytes>, breaks: seq<Break>)
    requires |pieces| == |breaks| + 1
  {
    forall i :: 0 <= i && i + 1 < |breaks| ==> !(breaks[i] == Cr && pieces[i + 1] == [] && breaks[i + 1] == Lf)
  }

  lemma {:induction false} TextStart(pieces: seq<bytes>, breaks: seq<Break>)
    requires |pieces| == |breaks| + 1 && BreakFree(pieces[0])
    ensures Text(pieces, breaks) != [] && Text(pieces, breaks)[0] == LF <==>
            pieces[0] == [] && breaks != [] && breaks[0] == Lf
  {
    if breaks != [] && pieces[0] != [] {
      assert Text(pieces, breaks)[0] == pieces[0][0];
    } else if breaks != [] {
      assert Text(pieces, breaks)[0] == BreakBytes(breaks[0])[0];
    }
  }

  /** Whatever breaks a text is joined with, it splits into the pieces again. */
  lemma {:induction false} SplittingUndoesJoining(pieces: seq<bytes>, breaks: seq<Break>)
    requires |pieces| == |breaks| + 1 && Unambiguous(pieces, breaks)
    requires forall i :: 0 <= i < |pieces| ==> BreakFree(pieces[i])
    ensures Lines(Text(pieces, breaks)) == pieces
  {
    hide Lines, BreakBytes, BreakFree;
    if breaks == [] {
      OneLine(pieces[0]);
    } else {
      var rest := Text(pieces[1..], breaks[1..]);
      UnambiguousRest(pieces, breaks);
      SplittingUndoesJoining(pieces[1..], breaks[1..]);
      TextStart(pieces[1..], breaks[1..]);
      SplitFirst(pieces[0], breaks[0], rest);
    }
  }

  lemma {:induction false} OneLine(piece: bytes)
    requires BreakFree(piece)
    ensures Lines(piece) == [piece]
  {
    LineEndIs(piece, |piece|);
  }

  lemma {:induction false} UnambiguousRest(pieces: seq<bytes>, breaks: seq<Break>)
    requires |pieces| == |breaks| + 1 && breaks != [] && Unambiguous(pieces, breaks)
    ensures Unambiguous(pieces[1..], breaks[1..])
    ensures breaks[0] == Cr && |breaks| > 1 ==> !(pieces[1] == [] && breaks[1] == Lf)
  {
    forall i | 0 <= i && i + 1 < |breaks[1..]|
      ensures !(breaks[1..][i] == Cr && pieces[1..][i + 1] == [] && breaks[1..][i + 1] == Lf)
    {
      assert breaks[1..][i] == breaks[i + 1] && breaks[1..][i + 1] == breaks[(i + 1) + 1] &&
          pieces[1..][i + 1] == pieces[(i + 1) + 1];
    }
    if breaks[0] == Cr && |breaks| > 1 {
      assert !(breaks[0] == Cr && pieces[0 + 1] == [] && breaks[0 + 1] == Lf);
    }
  }

  lemma {:induction false} SplitFirst(piece: bytes, b: Break, rest: bytes)
    requires BreakFree(piece)
    requires b == Cr ==> !(rest != [] && rest[0] == LF)
    ensures Lines(piece + BreakBytes(b) + rest) == [piece] + Lines(rest)
  {
    hide Lines, LineEnd;
    var first := piece + BreakBytes(b);
    assert first[|piece|] == BreakBytes(b)[0];
    assert forall k :: 0 <= k < |piece| ==> first[k] == piece[k];
    LineEndIs(first, |piece|);
    LinesAtBreak(first, rest, |piece|);
    assert first[..|piece|] == piece;
    assert first[|piece| + 1..] == BreakBytes(b)[1..];
    assert ([LF] + rest)[1..] == rest && [] + rest == rest;
  }

  /** And no piece of any text has a break in it. */
  lemma {:induction false} LinesAreBreakFree(s: bytes)
    ensures forall i :: 0 <= i < |Lines(s)| ==> BreakFree(Lines(s)[i])
    decreases |s|
  {
    var e := LineEnd(s);
    if e < |s| {
      LinesAreBreakFree(Skipped(s[e + 1..], s[e] == CR));
    }
  }
}

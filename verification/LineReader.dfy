/** The configuration reader: a stack of files, each read through a small buffer. */
module LineReader {
  import opened Bytes
  import opened ConfigLines

  const BUFFER_SIZE := 1024
  const MAX_TOTAL_SIZE := 64 * 1024 * 1024
  const MAX_INCLUDED_FILES := 10000

  /** What one read on a file comes to: as many octets as the system likes, a signal, or a failure. */
  datatype Reading = Octets(n: nat) | Signal | Failure

  /** `unread` is still on disk; `lastBreak` is the line break last seen, or 0. */
  datatype File = File(path: bytes, unread: bytes, buffer: bytes, offset: nat, length: nat, lastBreak: byte,
      eof: bool, line: nat)

  predicate ValidFile(f: File) {
    f.offset + f.length <= |f.buffer| && (f.eof ==> f.length == 0 && f.unread == [])
  }

  function Buffered(f: File): bytes
    requires ValidFile(f)
  {
    f.buffer[f.offset..f.offset + f.length]
  }

  /** The lines of a file yet to be delivered. */
  function Left(f: File): seq<bytes>
    requires ValidFile(f)
  {
    if f.eof then [] else Lines(Skipped(Buffered(f) + f.unread, f.lastBreak == CR))
  }

  datatype Frame = Frame(path: bytes, left: seq<bytes>)

  function FrameOf(f: File): Frame
    requires ValidFile(f)
  {
    Frame(f.path, Left(f))
  }

  predicate ValidFiles(files: seq<File>) {
    forall i :: 0 <= i < |files| ==> ValidFile(files[i])
  }

  function Frames(files: seq<File>): (r: seq<Frame>)
    requires ValidFiles(files)
    ensures |r| == |files|
    ensures forall i :: 0 <= i < |files| ==> r[i] == FrameOf(files[i])
  {
    seq(|files|, i requires 0 <= i < |files| => FrameOf(files[i]))
  }

  function Paths(frames: seq<Frame>): (r: seq<bytes>)
    ensures |r| == |frames|
  {
    if frames == [] then [] else Paths(frames[..|frames| - 1]) + [frames[|frames| - 1].path]
  }

  /** What is still to come from a stack of files: first the top one's lines, then those below. */
  function Pending(fs: FileSystem, frames: seq<Frame>): Expansion {
    if frames == [] then NOTHING else
      var n := |frames| - 1;
      Then(Expand(fs, Paths(frames), frames[n].left), Pending(fs, frames[..n]))
  }

  /** Files that are used up are closed when the next line is wanted. */
  function Trim(frames: seq<Frame>): (r: seq<Frame>)
    ensures r <= frames
    ensures r != [] ==> r[|r| - 1].left != []
  {
    if frames == [] || frames[|frames| - 1].left != [] then frames else Trim(frames[..|frames| - 1])
  }

  lemma {:induction false} TrimKeepsPending(fs: FileSystem, frames: seq<Frame>)
    ensures Pending(fs, Trim(frames)) == Pending(fs, frames)
  {
    if frames != [] && frames[|frames| - 1].left == [] {
      var below := frames[..|frames| - 1];
      TrimKeepsPending(fs, below);
      NothingThen(Pending(fs, below));
    }
  }

  lemma {:induction false} NothingThen(e: Expansion)
    ensures Then(NOTHING, e) == e
  {
  }

  lemma {:induction false} ThenThen(a: Expansion, b: Expansion, c: Expansion)
    ensures Then(Then(a, b), c) == Then(a, Then(b, c))
  {
    if a.error.None? && b.error.None? {
      assert a.lines + b.lines + c.lines == a.lines + (b.lines + c.lines);
    }
  }

  /** The stack after its top file has delivered a line. */
  function Advanced(frames: seq<Frame>): seq<Frame>
    requires frames != [] && frames[|frames| - 1].left != []
  {
    var n := |frames| - 1;
    frames[..n] + [frames[n].(left := frames[n].left[1..])]
  }

  lemma {:induction false} AdvancedPaths(frames: seq<Frame>)
    requires frames != [] && frames[|frames| - 1].left != []
    ensures Paths(Advanced(frames)) == Paths(frames)
    ensures Paths(frames) != [] && Paths(frames)[|frames| - 1] == frames[|frames| - 1].path
  {
    assert Advanced(frames)[..|frames| - 1] == frames[..|frames| - 1];
  }

  /** What a line delivered by the top file means for what is to come. */
  lemma {:induction false} OneLineLess(fs: FileSystem, frames: seq<Frame>)
    requires frames != [] && frames[|frames| - 1].left != []
    ensures var line, after := frames[|frames| - 1].left[0], Advanced(frames);
            && (|line| > MAX_LINE_SIZE ==> Pending(fs, frames) == Ends(LineTooLong))
            && (|line| <= MAX_LINE_SIZE ==>
                  match ReadDirective(line)
                  case Plain => Pending(fs, frames) == Then(JustLine(line), Pending(fs, after))
                  case Malformed(e) => Pending(fs, frames) == Ends(e)
                  case Include(path) => IncludeMeans(fs, Pending(fs, frames), path, after))
  {
    hide ReadDirective, OpenFile, Then, Located, JustLine, Takes, Ends;
    var n := |frames| - 1;
    var line, after, below := frames[n].left[0], Advanced(frames), Pending(fs, frames[..n]);
    var rest := Expand(fs, Paths(frames), frames[n].left[1..]);
    AdvancedPaths(frames);
    assert after[..n] == frames[..n] && after[n].left == frames[n].left[1..];
    assert Pending(fs, after) == Then(rest, below);
    ErrorEnds(below);
    if |line| <= MAX_LINE_SIZE {
      match ReadDirective(line) {
        case Plain => ThenThen(JustLine(line), rest, below);
        case Malformed(e) =>
        case Include(path) =>
          var o := OpenFile(fs, Paths(after), Located(Paths(after)[n], path));
          if o.Opened? {
            var takes := Takes(|fs.regular[o.path]|);
            var inner := Expand(fs, Paths(after) + [o.path], Lines(fs.regular[o.path]));
            Pushed(fs, after, o.path);
            ThenThen(Then(takes, inner), rest, below);
            ThenThen(takes, inner, Then(rest, below));
          }
      }
    }
  }

  /** An include directive: what was to come is the file, opened, or ends in an error. */
  ghost predicate IncludeMeans(fs: FileSystem, before: Expansion, path: bytes, after: seq<Frame>)
    requires after != []
  {
    match OpenFile(fs, Paths(after), Located(Paths(after)[|after| - 1], path))
    case Denied(e) => before == Ends(e)
    case Opened(p) => before == Then(Takes(|fs.regular[p]|), Pending(fs, after + [Frame(p, Lines(fs.regular[p]))]))
  }

  lemma {:induction false} ErrorEnds(second: Expansion)
    ensures forall e: Error :: Then(Ends(e), second) == Ends(e)
  {
  }

  lemma {:induction false} Pushed(fs: FileSystem, frames: seq<Frame>, p: bytes)
    requires p in fs.regular
    ensures Pending(fs, frames + [Frame(p, Lines(fs.regular[p]))]) ==
              Then(Expand(fs, Paths(frames) + [p], Lines(fs.regular[p])), Pending(fs, frames))
  {
    var more := frames + [Frame(p, Lines(fs.regular[p]))];
    assert more[..|frames|] == frames;
  }

  // ----- One line of one file -----

  /** How a try at a line went; `Line` carries it. */
  datatype LineResult = Line(line: bytes) | NoMore | Failed(error: Error)

  datatype Got = Data(data: bytes) | AtEnd | Broken

  function Emptied(f: File): File {
    f.(offset := 0, length := 0)
  }

  /** An LF at the start of what is buffered, behind a CR that ended the last line, is passed over. */
  function PastLf(f: File): File
    requires ValidFile(f) && f.length > 0
  {
    if f.lastBreak == CR then
      if f.buffer[f.offset] == LF then f.(offset := f.offset + 1, length := f.length - 1, lastBreak := 0)
      else f.(lastBreak := 0)
    else f
  }

  lemma {:induction false} PastLfLeaves(f: File)
    requires ValidFile(f) && f.length > 0
    ensures var g := PastLf(f);
            && ValidFile(g) && g.lastBreak != CR && g.unread == f.unread && g.path == f.path && g.eof == f.eof
            && Skipped(Buffered(f) + f.unread, f.lastBreak == CR) == Buffered(g) + g.unread
  {
    var v := Buffered(f);
    assert v[0] == f.buffer[f.offset];
    SkippedInFirst(v, f.unread, f.lastBreak == CR);
    if f.lastBreak == CR && v[0] == LF {
      assert v[1..] == f.buffer[f.offset + 1..f.offset + f.length];
    }
  }

  function BreakTaken(f: File, i: nat): File
    requires ValidFile(f) && i < f.length
  {
    f.(lastBreak := f.buffer[f.offset + i], offset := f.offset + i + 1, length := f.length - i - 1, line := f.line + 1)
  }

  lemma {:induction false} LeftOf(f: File)
    requires ValidFile(f)
    ensures Left(f) == if f.eof then [] else Lines(Skipped(Buffered(f) + f.unread, f.lastBreak == CR))
  {
  }

  /** A break in the buffer ends the line, and the rest of the file's lines follow. */
  lemma {:induction false} BreakFound(f: File, line: bytes, i: nat)
    requires ValidFile(f) && !f.eof && i == LineEnd(Buffered(f)) && i < f.length
    ensures var g, all := BreakTaken(f, i), Joined(line, Lines(Buffered(f) + f.unread));
            && ValidFile(g) && g.path == f.path && g.unread == f.unread && all == [line + Buffered(f)[..i]] + Left(g)
  {
    hide Lines, LineEnd, Skipped, Left, Joined;
    var v, g := Buffered(f), BreakTaken(f, i);
    assert v[i] == f.buffer[f.offset + i];
    assert v[i + 1..] == Buffered(g);
    LinesAtBreak(v, f.unread, i);
    LeftOf(g);
    JoinedCons(line, v[..i], Left(g));
  }

  /** Text without a break is added to the line. */
  lemma {:induction false} NoBreakFound(f: File, line: bytes)
    requires ValidFile(f) && LineEnd(Buffered(f)) == f.length
    ensures Joined(line, Lines(Buffered(f) + f.unread)) == Joined(line + Buffered(f), Lines(f.unread))
  {
    LinesOfJoined(Buffered(f), f.unread);
    JoinedTwice(line, Buffered(f), Lines(f.unread));
  }

  lemma {:induction false} EndOfText(line: bytes)
    ensures Joined(line, Lines([])) == [line]
  {
    assert line + [] == line;
  }

  lemma {:induction false} NothingJoined(lines: seq<bytes>)
    requires lines != []
    ensures Joined([], lines) == lines
  {
    assert [] + lines[0] == lines[0];
  }

  lemma {:induction false} NoneSkipped(s: bytes, afterCr: bool)
    ensures !afterCr || s == [] ==> Skipped(s, afterCr) == s
  {
  }

  /** With an empty buffer, what is left is what is on disk. */
  lemma {:induction false} NothingBuffered(f: File)
    requires ValidFile(f) && f.length == 0
    ensures Buffered(f) + f.unread == f.unread
  {
  }

  /** However much of the disk moves into the buffer, the text is the same. */
  lemma {:induction false} FilledSame(f: File, data: bytes)
    requires data <= f.unread
    ensures !f.eof ==> ValidFile(Filled(f, data))
    ensures !f.eof ==> Buffered(Filled(f, data)) + Filled(f, data).unread == f.unread
  {
    var g := Filled(f, data);
    if ValidFile(g) {
      assert Buffered(g) == data;
    }
  }

  /** A line is at least as long as the part of it that has been seen. */
  lemma {:induction false} SeenOfLine(f: File, line: bytes, i: nat)
    requires ValidFile(f) && i == LineEnd(Buffered(f))
    ensures |Joined(line, Lines(Buffered(f) + f.unread))[0]| >= |line| + i
  {
    var s, v := Buffered(f) + f.unread, Buffered(f);
    var e := LineEnd(s);
    assert forall k :: 0 <= k < i ==> s[k] == v[k];
  }

  // ----- One directive -----

  method TrimText(s: bytes) returns (r: bytes)
    ensures r == Trimmed(s)
  {
    hide TrimmedLeft, TrimmedRight;
    var left, right := 0, |s|;
    assert s[0..] == s;
    while left < right && IsSpace(s[left])
      invariant 0 <= left <= right == |s|
      invariant TrimmedLeft(s[left..]) == TrimmedLeft(s)
    {
      SpaceLeft(s, left);
      left := left + 1;
    }
    SpacesLeft(s, left);
    while left < right && IsSpace(s[right - 1])
      invariant left <= right <= |s|
      invariant TrimmedRight(s[left..right]) == Trimmed(s)
    {
      SpaceRight(s, left, right);
      right := right - 1;
    }
    SpacesRight(s, left, right);
    return s[left..right];
  }

  lemma {:induction false} SpaceLeft(s: bytes, left: nat)
    requires left < |s| && IsSpace(s[left])
    ensures TrimmedLeft(s[left..]) == TrimmedLeft(s[left + 1..])
  {
    assert s[left..][1..] == s[left + 1..];
  }

  lemma {:induction false} SpacesLeft(s: bytes, left: nat)
    requires left <= |s| && (left == |s| || !IsSpace(s[left]))
    ensures TrimmedLeft(s[left..]) == s[left..|s|]
  {
    assert s[left..] == s[left..|s|];
  }

  lemma {:induction false} SpaceRight(s: bytes, left: nat, right: nat)
    requires left < right <= |s| && IsSpace(s[right - 1])
    ensures TrimmedRight(s[left..right]) == TrimmedRight(s[left..right - 1])
  {
    assert s[left..right][..right - left - 1] == s[left..right - 1];
  }

  lemma {:induction false} SpacesRight(s: bytes, left: nat, right: nat)
    requires left <= right <= |s| && (left == right || !IsSpace(s[right - 1]))
    ensures TrimmedRight(s[left..right]) == s[left..right]
  {
  }

  method FindComment(s: bytes) returns (r: Scanned)
    ensures r == ScanComment(s, 0, 0)
  {
    var quote: byte := 0;
    for i := 0 to |s|
      invariant ScanComment(s, i, quote) == ScanComment(s, 0, 0)
    {
      var c := s[i];
      if quote != 0 {
        if c == quote {
          quote := 0;
        }
      } else if IsQuote(c) {
        quote := c;
      } else if c == SEMICOLON || c == HASH {
        return Comment(i);
      }
    }
    return if quote != 0 then Unclosed else Clean;
  }

  method ParseDirective(line: bytes) returns (d: Directive)
    ensures d == ReadDirective(line)
  {
    hide Trimmed, ScanComment, PathOf;
    var content := TrimText(line);
    for i := 0 to |content|
      invariant forall k :: 0 <= k < i ==> !IsControl(content[k])
    {
      if IsControl(content[i]) {
        return Malformed(ControlCharacter);
      }
    }
    if |content| <= 7 || content[..7] != INCLUDE || !IsSpace(content[7]) {
      return Plain;
    }
    content := TrimText(content[7..]);
    var comment := FindComment(content);
    if comment == Unclosed {
      return Malformed(UnterminatedQuote);
    }
    if comment.Comment? {
      content := content[..comment.at];
    }
    content := TrimText(content);
    d := ParsePath(content);
  }

  method ParsePath(content: bytes) returns (d: Directive)
    ensures d == PathOf(content)
  {
    hide Trimmed;
    if content == [] {
      return Malformed(NoPath);
    }
    var path := content;
    if IsQuote(content[0]) {
      var closing := 1;
      while closing < |content| && content[closing] != content[0]
        invariant 1 <= closing <= |content|
        invariant IndexOf(content, content[0], closing) == IndexOf(content, content[0], 1)
      {
        closing := closing + 1;
      }
      if closing == |content| {
        return Malformed(UnterminatedQuote);
      }
      var tail := TrimText(content[closing + 1..]);
      if tail != [] {
        return Malformed(TextAfterPath);
      }
      path := content[1..closing];
    }
    if path == [] {
      return Malformed(NoPath);
    }
    return Include(path);
  }

  // ----- Reading -----

  /** The lines of a file yet to be delivered, a beginning of the first of them having been taken. */
  function Whole(line: bytes, f: File): seq<bytes>
    requires ValidFile(f)
  {
    Joined(line, Lines(Skipped(Buffered(f) + f.unread, f.lastBreak == CR)))
  }

  /** A limit is reported only when it is met, and a read error only when a read fails. */
  predicate LimitHit(e: Error, script: seq<Reading>, files: nat, octets: nat) {
    || (e == ReadError && Failure in script)
    || (e == TooMuchInput && octets > MAX_TOTAL_SIZE)
    || (e == TooManyFiles && files >= MAX_INCLUDED_FILES)
  }

  /**
    * A try at a line takes the first of the lines there are, or fails for a reason; `octets` is what has
    * been read and what of the file is on disk.
    */
  predicate Yields(lines: seq<bytes>, r: LineResult, f: File, script: seq<Reading>, octets: nat)
    requires ValidFile(f)
  {
    match r
    case NoMore => false
    case Line(l) => |l| <= MAX_LINE_SIZE && lines == [l] + Left(f)
    case Failed(e) =>
      LimitHit(e, script, 0, octets) || (e == LineTooLong && lines != [] && |lines[0]| > MAX_LINE_SIZE)
  }

  /** The octets on disk that the files of the stack still have. */
  function OnDisk(files: seq<File>): nat {
    if files == [] then 0 else OnDisk(files[..|files| - 1]) + |files[|files| - 1].unread|
  }

  /** Reading only ever takes from the script. */
  predicate Within(script: seq<Reading>, whole: seq<Reading>) {
    forall x :: x in script ==> x in whole
  }

  lemma {:induction false} WholeAtStart(f: File)
    requires ValidFile(f) && !f.eof
    ensures Whole([], f) == Left(f)
  {
    hide Lines, Skipped, Buffered, Joined;
    NothingJoined(Left(f));
  }

  lemma {:induction false} BufferedSize(f: File)
    requires ValidFile(f)
    ensures |Buffered(f)| == f.length
  {
  }

  lemma {:induction false} EmptiedWhole(f: File, line: bytes)
    requires ValidFile(f) && f.lastBreak != CR
    ensures Whole(line, Emptied(f)) == Joined(line, Lines(f.unread))
  {
    hide Lines, Joined;
    NothingBuffered(Emptied(f));
    NoneSkipped(f.unread, false);
  }

  method FindBreak(v: bytes) returns (i: nat)
    ensures i == LineEnd(v)
  {
    i := 0;
    while i < |v| && !IsBreak(v[i])
      invariant i <= |v| && forall k :: 0 <= k < i ==> !IsBreak(v[k])
    {
      i := i + 1;
    }
    LineEndIs(v, i);
  }

  class Reader {
    const fs: FileSystem
    var files: seq<File>
    var bytesRead: nat
    var filesOpened: nat
    var script: seq<Reading>

    ghost predicate Valid()
      reads this
    {
      ValidFiles(files) && bytesRead <= MAX_TOTAL_SIZE && filesOpened <= MAX_INCLUDED_FILES
    }

    ghost function ToCome(): Expansion
      requires Valid()
      reads this
    {
      Pending(fs, Frames(files))
    }

    constructor (fs: FileSystem, script: seq<Reading>)
      ensures Valid() && files == [] && this.fs == fs
    {
      this.fs, this.script := fs, script;
      files, bytesRead, filesOpened := [], 0, 0;
    }

    /** The system gives between one octet and a buffer full, or says that there are no more. */
    method ReadDisk(unread: bytes) returns (got: Got)
      modifies this`script
      ensures Within(script, old(script))
      ensures got.Data? ==> 0 < |got.data| <= BUFFER_SIZE && got.data <= unread
      ensures got.AtEnd? ==> unread == []
      ensures got.Broken? ==> Failure in old(script)
    {
      while script != [] && script[0] == Signal
        invariant Within(script, old(script))
        decreases |script|
      {
        script := script[1..];
      }
      var n := BUFFER_SIZE;
      if script != [] {
        if script[0] == Failure {
          return Broken;
        }
        n := script[0].n;
        script := script[1..];
      }
      if unread == [] {
        return AtEnd;
      }
      return Data(unread[..Min(Max(n, 1), Min(BUFFER_SIZE, |unread|))]);
    }

    /** Delivers the first of the lines left in a file, however the reads cut it up. */
    method ReadLine(before: File) returns (f: File, r: LineResult)
      requires ValidFile(before) && !before.eof && bytesRead <= MAX_TOTAL_SIZE
      modifies this`script, this`bytesRead
      ensures ValidFile(f) && f.path == before.path && Within(script, old(script)) && bytesRead <= MAX_TOTAL_SIZE
      ensures bytesRead + |f.unread| == old(bytesRead) + |before.unread|
      ensures Yields(Left(before), r, f, old(script), old(bytesRead) + |before.unread|)
    {
      hide Whole, Yields, Left, Within;
      f, r := before, NoMore;
      var line: bytes := [];
      var done := false;
      ghost var octets := bytesRead + |before.unread|;
      WholeAtStart(before);
      WithinItself(script);
      while !done
        invariant ValidFile(f) && f.path == before.path && |line| <= MAX_LINE_SIZE
        invariant bytesRead + |f.unread| == octets && Within(script, old(script)) && bytesRead <= MAX_TOTAL_SIZE
        invariant !done ==> !f.eof && Whole(line, f) == Left(before)
        invariant done ==> Yields(Left(before), r, f, old(script), octets)
        decreases !done, |f.unread|
      {
        ghost var at := script;
        if f.length > 0 {
          done, f, line, r := TakeBuffered(f, line, old(script), octets);
        }
        if !done {
          done, f, r := Refill(f, line, old(script));
        }
        WithinTwice(script, at, old(script));
      }
    }

    /** Takes what the buffer has of the line: up to a break, or all of it. */
    method TakeBuffered(before: File, prefix: bytes, ghost whole: seq<Reading>, ghost octets: nat)
      returns (done: bool, f: File, line: bytes, r: LineResult)
      requires ValidFile(before) && !before.eof && before.length > 0 && |prefix| <= MAX_LINE_SIZE
      ensures ValidFile(f) && f.path == before.path && f.unread == before.unread && |line| <= MAX_LINE_SIZE
      ensures !done ==> f.length == 0 && !f.eof && Whole(line, f) == Whole(prefix, before)
      ensures done ==> Yields(Whole(prefix, before), r, f, whole, octets)
    {
      hide Skipped, Lines, LineEnd, PastLf, BreakTaken, Left, Joined, Buffered;
      PastLfLeaves(before);
      f := PastLf(before);
      var v := Buffered(f);
      var i := FindBreak(v);
      if i > MAX_LINE_SIZE - |prefix| {
        SeenOfLine(f, prefix, i);
        return true, f, prefix, Failed(LineTooLong);
      }
      BufferedSize(f);
      if i < |v| {
        BreakFound(f, prefix, i);
        return true, BreakTaken(f, i), prefix, Line(prefix + v[..i]);
      }
      NoBreakFound(f, prefix);
      EmptiedWhole(f, prefix + v);
      return false, Emptied(f), prefix + v, NoMore;
    }

    /** Fills an empty buffer; at the end of the file the line is what it is. */
    method Refill(before: File, line: bytes, ghost whole: seq<Reading>) returns (done: bool, f: File, r: LineResult)
      requires ValidFile(before) && !before.eof && before.length == 0 && |line| <= MAX_LINE_SIZE &&
              Within(script, whole) && bytesRead <= MAX_TOTAL_SIZE
      modifies this`script, this`bytesRead
      ensures ValidFile(f) && f.path == before.path && Within(script, old(script)) && bytesRead <= MAX_TOTAL_SIZE
      ensures bytesRead + |f.unread| == old(bytesRead) + |before.unread|
      ensures !done ==> !f.eof && |f.unread| < |before.unread| && Whole(line, f) == Whole(line, before)
      ensures done ==> Yields(Whole(line, before), r, f, whole, old(bytesRead) + |before.unread|)
    {
      hide Skipped, Lines, LineEnd, Left, Joined, Buffered;
      NothingBuffered(before);
      f := Emptied(before);
      var got := ReadDisk(f.unread);
      if got == Broken {
        return true, f, Failed(ReadError);
      }
      if got == AtEnd {
        NoneSkipped([], f.lastBreak == CR);
        EndOfText(line);
        f := f.(eof := true, line := f.line + 1);
        LeftOf(f);
        return true, f, Line(line);
      }
      if |got.data| > MAX_TOTAL_SIZE - Min(bytesRead, MAX_TOTAL_SIZE) {
        return true, f, Failed(TooMuchInput);
      }
      bytesRead := bytesRead + |got.data|;
      FilledSame(f, got.data);
      return false, Filled(f, got.data), NoMore;
    }

    /** Closes the files at the top of the stack that have no lines left. */
    method CloseSpent()
      requires Valid()
      modifies this`files
      ensures Valid() && Frames(files) == Trim(old(Frames(files))) && OnDisk(files) == OnDisk(old(files))
    {
      hide Left, Trim, Frames;
      ghost var start := Frames(files);
      while files != [] && files[|files| - 1].eof
        invariant Valid() && OnDisk(files) == OnDisk(old(files))
        invariant Trim(Frames(files)) == Trim(start)
        decreases |files|
      {
        SpentIsTrimmed(files);
        files := files[..|files| - 1];
      }
      UnspentIsTrimmed(files);
    }

    /** The next line of the top file that has one. */
    method InternalGetline() returns (r: LineResult)
      requires Valid()
      modifies this
      ensures Valid() && filesOpened == old(filesOpened) && Within(script, old(script))
      ensures r.NoMore? ==> files == []
      ensures r.Line? || r.NoMore? ==> bytesRead + OnDisk(files) == old(bytesRead) + OnDisk(old(files))
      ensures Delivers(Trim(old(Frames(files))), r, Frames(files), old(script), old(bytesRead) + OnDisk(old(files)))
    {
      hide Left, Trim, Frames, Within, OnDisk;
      WithinItself(script);
      CloseSpent();
      ghost var start := files;
      if files == [] {
        NoFrames(files);
        return NoMore;
      }
      var n := |files| - 1;
      NotSpent(files);
      TopFrame(files);
      LeftNotEmpty(files[n]);
      var f;
      f, r := ReadLine(files[n]);
      TopOnDisk(start, f);
      if r.Line? {
        files := files[n := f];
        FramesAdvance(start, f, r.line);
      }
    }

    method IsOpen(abspath: bytes) returns (r: bool)
      requires Valid()
      ensures r <==> abspath in Paths(Frames(files))
    {
      hide Frames, Left, Paths;
      PathsOfFiles(files);
      for i := 0 to |files|
        invariant forall k :: 0 <= k < i ==> files[k].path != abspath
      {
        if files[i].path == abspath {
          assert Paths(Frames(files))[i] == abspath;
          return true;
        }
      }
      return false;
    }

    method Open(path: bytes) returns (error: Option<Error>)
      requires Valid()
      modifies this
      ensures Valid() && script == old(script) && bytesRead == old(bytesRead)
      ensures Opens(fs, old(files), old(filesOpened), path, error, files, filesOpened)
    {
      hide Lines, Frames, Left, Paths;
      PathsOfFiles(files);
      if path == [] {
        return Some(EmptyPath);
      }
      if path !in fs.canonical {
        return Some(NotFound);
      }
      var abspath := fs.canonical[path];
      if filesOpened >= MAX_INCLUDED_FILES {
        return Some(TooManyFiles);
      }
      if |files| >= MAX_INCLUDE_DEPTH {
        return Some(TooDeep);
      }
      var cyclic := IsOpen(abspath);
      if cyclic {
        return Some(Cyclic);
      }
      if abspath !in fs.regular {
        return Some(NotRegular);
      }
      var f := File(abspath, fs.regular[abspath], [], 0, 0, 0, false, 0);
      NewFileLeft(files, f);
      files := files + [f];
      filesOpened := filesOpened + 1;
      return None;
    }

    /** What the whole reading takes at most: what it has taken so far and what is to come. */
    ghost function Files(): nat
      requires Valid()
      reads this
    {
      filesOpened + ToCome().files
    }

    ghost function Octets(): nat
      requires Valid()
      reads this
    {
      bytesRead + OnDisk(files) + ToCome().octets
    }

    /** The next line of the configuration that is not an include directive. */
    method Getline() returns (r: LineResult)
      requires Valid()
      modifies this
      ensures Valid() && Within(script, old(script)) &&
              (!r.Failed? ==> Files() == old(Files()) && Octets() == old(Octets()))
      ensures r.NoMore? ==> files == []
      ensures Reports(old(ToCome()), r, ToCome(), old(script), old(Files()), old(Octets()))
    {
      hide Pending, Frames, Within, OnDisk, LimitHit;
      var again := true;
      r := NoMore;
      ghost var start, files0, octets0 := ToCome(), Files(), Octets();
      WithinItself(script);
      while again
        invariant Valid() && Within(script, old(script))
        invariant again || !r.Failed? ==> Files() == files0 && Octets() == octets0
        invariant !again && r.NoMore? ==> files == []
        invariant again ==> ToCome().lines == start.lines && ToCome().error == start.error
        invariant !again ==> Reports(start, r, ToCome(), old(script), files0, octets0)
        decreases again, Max(0, MAX_INCLUDED_FILES - filesOpened)
      {
        ghost var at, before := script, ToCome();
        again, r := NextLine();
        WithinTwice(script, at, old(script));
        if r.Failed? {
          LimitGrows(r.error, at, old(script), files0, octets0);
        }
      }
    }

    /** One line of some file; `again` when it was an include directive and has been carried out. */
    method NextLine() returns (again: bool, r: LineResult)
      requires Valid()
      modifies this
      ensures Valid() && Within(script, old(script))
      ensures !r.Failed? ==> Files() == old(Files()) && Octets() == old(Octets())
      ensures !again && r.NoMore? ==> files == []
      ensures again ==> r.NoMore?
      ensures again ==> old(filesOpened) < filesOpened <= MAX_INCLUDED_FILES
      ensures again ==> ToCome().lines == old(ToCome()).lines && ToCome().error == old(ToCome()).error
      ensures !again ==> Reports(old(ToCome()), r, ToCome(), old(script), old(Files()), old(Octets()))
    {
      hide Pending, Trim, Frames, OpenFile, Advanced, ReadDirective, LimitHit, Delivers, Expand, IncludeMeans, OnDisk;
      ghost var frames := Trim(Frames(files));
      TrimKeepsPending(fs, Frames(files));
      ghost var before, files0, octets0, script0 := Pending(fs, frames), Files(), Octets(), script;
      r := InternalGetline();
      LineReports(fs, frames, r, Frames(files), script0, octets0 - before.octets);
      LimitSum(script0, files0, octets0 - before.octets, before.octets);
      again := false;
      if r.Line? {
        var d := ParseDirective(r.line);
        match d {
          case Plain =>
          case Malformed(e) =>
            r := Failed(e);
          case Include(path) =>
            again, r := IncludeFile(path, before, script0);
        }
      } else if r.NoMore? {
        NothingIsLeft(fs);
      }
    }

    method IncludeFile(path: bytes, ghost before: Expansion, ghost whole: seq<Reading>)
      returns (again: bool, r: LineResult)
      requires Valid() && Frames(files) != [] && IncludeMeans(fs, before, path, Frames(files))
      modifies this
      ensures Valid() && script == old(script) && !r.Line? && (again <==> r.NoMore?)
      ensures again ==> old(filesOpened) < filesOpened <= MAX_INCLUDED_FILES
      ensures again ==> ToCome().lines == before.lines && ToCome().error == before.error
      ensures again ==> Files() == old(filesOpened) + before.files
                        && Octets() == old(bytesRead) + OnDisk(old(files)) + before.octets
      ensures !again ==> Reports(before, r, ToCome(), whole, old(filesOpened) + before.files, 0)
    {
      hide Pending, Frames, OpenFile, Lines, Located, OnDisk;
      NoFrames(files);
      SourceIsTop(files);
      var source := files[|files| - 1].path;
      var error := Open(Located(source, path));
      if error.Some? {
        return false, Failed(error.value);
      }
      return true, NoMore;
    }

    /** Opens the main file and reads lines until there are no more. */
    method ReadAll(path: bytes) returns (lines: seq<bytes>, error: Option<Error>)
      requires Valid() && files == []
      modifies this
      ensures lines <= Configuration(fs, path).lines
      ensures
        var c := Configuration(fs, path);
        || (lines == c.lines && error == c.error)
        || (error == Some(ReadError) && Failure in old(script))
        || (error == Some(TooMuchInput) && old(bytesRead) + c.octets > 64 * 1024 * 1024)
        || (error == Some(TooManyFiles) && old(filesOpened) + c.files >= 10000)
      ensures error == None ==>
        var c := Configuration(fs, path);
        && files == [] && lines == c.lines && c.error == None
        && bytesRead == old(bytesRead) + c.octets <= 64 * 1024 * 1024
        && filesOpened == old(filesOpened) + c.files <= 10000
    {
      hide Pending, Frames, Expand, Lines, OpenFile, Within, OnDisk, LimitHit;
      NoFrames(files);
      NoneOnDisk();
      ghost var start := files;
      lines := [];
      ghost var c, files0, octets0 := Configuration(fs, path), filesOpened, bytesRead;
      error := Open(path);
      ConfigurationIs(fs, path, start, files0, error, files, filesOpened);
      if error.Some? {
        if error == Some(TooManyFiles) && filesOpened >= MAX_INCLUDED_FILES {
          ManyFiles(error.value, old(script), files0 + c.files, octets0 + c.octets);
          LimitMeans(error.value, old(script), files0 + c.files, octets0 + c.octets);
        }
        return;
      }
      WithinItself(script);
      var done := false;
      while !done
        invariant Valid() && Within(script, old(script))
        invariant !done ==> error == None && c.lines == lines + ToCome().lines && c.error == ToCome().error
        invariant error == None ==> Files() == files0 + c.files && Octets() == octets0 + c.octets
        invariant done && error == None ==> files == []
        invariant done ==> (lines == c.lines && error == c.error) ||
                           (error.Some? && LimitHit(error.value, old(script), files0 + c.files, octets0 + c.octets))
        invariant lines <= c.lines
        decreases !done, |c.lines| - |lines|
      {
        ghost var at, before := script, ToCome();
        var r := Getline();
        WithinTwice(script, at, old(script));
        match r {
          case Line(l) =>
            assert lines + ([l] + ToCome().lines) == (lines + [l]) + ToCome().lines;
            lines := lines + [l];
          case NoMore =>
            assert lines + [] == lines;
            done := true;
          case Failed(e) =>
            assert lines + [] == lines;
            LimitGrows(e, at, old(script), files0 + c.files, octets0 + c.octets);
            error := Some(e);
            done := true;
        }
      }
      if error.Some? {
        LimitMeans(error.value, old(script), files0 + c.files, octets0 + c.octets);
      } else {
        NothingIsLeft(fs);
      }
    }
  }

  /** What a line handed out, or the lack of one, tells of what was to come. */
  ghost predicate Reports(before: Expansion, r: LineResult, after: Expansion, script: seq<Reading>, files: nat,
                          octets: nat) {
    match r
    case Line(l) => before.lines == [l] + after.lines && before.error == after.error
    case NoMore => before.lines == [] && before.error == None
    case Failed(e) => LimitHit(e, script, files, octets) || (before.lines == [] && before.error == Some(e))
  }

  lemma {:induction false} WithinItself(script: seq<Reading>)
    ensures Within(script, script)
  {
  }

  lemma {:induction false} WithinTwice(a: seq<Reading>, b: seq<Reading>, c: seq<Reading>)
    requires Within(a, b) && Within(b, c)
    ensures Within(a, c)
  {
  }

  lemma {:induction false} LimitGrows(e: Error, script: seq<Reading>, whole: seq<Reading>, files: nat, octets: nat)
    requires Within(script, whole)
    ensures LimitHit(e, script, files, octets) ==> LimitHit(e, whole, files, octets)
  {
  }

  lemma {:induction false} LimitSum(script: seq<Reading>, files: nat, octets: nat, more: nat)
    ensures forall e, fewer: nat :: fewer <= files && LimitHit(e, script, fewer, octets) ==>
            LimitHit(e, script, files, octets + more)
    ensures forall e :: LimitHit(e, script, files, 0) ==> LimitHit(e, script, files, octets + more)
  {
  }

  lemma {:induction false} ManyFiles(e: Error, script: seq<Reading>, files: nat, octets: nat)
    requires e == TooManyFiles && files >= MAX_INCLUDED_FILES
    ensures LimitHit(e, script, files, octets)
  {
  }

  lemma {:induction false} LimitMeans(e: Error, script: seq<Reading>, files: nat, octets: nat)
    ensures LimitHit(e, script, files, octets) <==>
            || (e == ReadError && Failure in script)
            || (e == TooMuchInput && octets > 64 * 1024 * 1024)
            || (e == TooManyFiles && files >= 10000)
  {
  }

  lemma {:induction false} NothingIsLeft(fs: FileSystem)
    ensures OnDisk([]) == 0 && Frames([]) == [] && Pending(fs, []) == NOTHING
  {
  }

  lemma {:induction false} NoneOnDisk()
    ensures OnDisk([]) == 0
  {
  }

  lemma {:induction false} TopOnDisk(files: seq<File>, f: File)
    requires files != []
    ensures OnDisk(files) >= |files[|files| - 1].unread|
    ensures OnDisk(files[|files| - 1 := f]) == OnDisk(files) - |files[|files| - 1].unread| + |f.unread|
  {
    assert files[|files| - 1 := f][..|files| - 1] == files[..|files| - 1];
  }

  /** The configuration is what opening its main file makes it. */
  lemma {:induction false} ConfigurationIs(fs: FileSystem, path: bytes, files: seq<File>, count: nat,
                                           error: Option<Error>, after: seq<File>, newCount: nat)
    requires files == [] && Opens(fs, files, count, path, error, after, newCount) && ValidFiles(after)
    ensures match error
            case Some(e) => (e == TooManyFiles && count >= MAX_INCLUDED_FILES) || Configuration(fs, path) == Ends(e)
            case None =>
              newCount == count + 1 && Configuration(fs, path) == Then(Takes(OnDisk(after)), Pending(fs, Frames(after)))
  {
    hide Expand, Lines, Then, Takes, Ends;
    assert Frames(files) == [] && Paths([]) == [];
    NoneOnDisk();
    var o := OpenFile(fs, [], path);
    if o.Opened? {
      assert [] + [o.path] == [o.path];
      Pushed(fs, [], o.path);
      NothingPending(fs);
      ThenNothing(Expand(fs, [o.path], Lines(fs.regular[o.path])));
    }
  }

  lemma {:induction false} ThenNothing(e: Expansion)
    ensures Then(e, NOTHING) == e
    ensures Then(NOTHING, e) == e
  {
    assert e.lines + [] == e.lines && [] + e.lines == e.lines;
  }

  lemma {:induction false} LineReports(fs: FileSystem, frames: seq<Frame>, r: LineResult, after: seq<Frame>,
                                       script: seq<Reading>, octets: nat)
    requires Delivers(frames, r, after, script, octets)
    ensures var before := Pending(fs, frames);
            match r
            case NoMore => before == NOTHING
            case Failed(e) => LimitHit(e, script, 0, octets) || before == Ends(e)
            case Line(line) =>
              match ReadDirective(line)
              case Plain => before == Then(JustLine(line), Pending(fs, after))
              case Malformed(e) => before == Ends(e)
              case Include(path) => after != [] && IncludeMeans(fs, before, path, after)
  {
    hide Pending, OpenFile, Lines, Located, Then, LimitHit, ReadDirective, IncludeMeans;
    if r.NoMore? {
      NothingPending(fs);
    } else {
      OneLineLess(fs, frames);
    }
  }

  lemma {:induction false} NothingPending(fs: FileSystem)
    ensures Pending(fs, []) == NOTHING
  {
  }

  /** What a try at a line reports of the stack once trimmed, and makes of it. */
  ghost predicate Delivers(frames: seq<Frame>, r: LineResult, after: seq<Frame>, script: seq<Reading>, octets: nat) {
    match r
    case NoMore => frames == []
    case Line(l) =>
      && frames != [] && frames[|frames| - 1].left != []
      && |l| <= MAX_LINE_SIZE && l == frames[|frames| - 1].left[0] && after == Advanced(frames)
    case Failed(e) =>
      && frames != [] && frames[|frames| - 1].left != []
      && (LimitHit(e, script, 0, octets) || (e == LineTooLong && |frames[|frames| - 1].left[0]| > MAX_LINE_SIZE))
  }

  /** What opening one more file reports, and makes of the stack. */
  ghost predicate Opens(fs: FileSystem, before: seq<File>, count: nat, path: bytes, error: Option<Error>,
                        after: seq<File>, newCount: nat)
    requires ValidFiles(before)
  {
    if error == Some(TooManyFiles) then newCount == count >= MAX_INCLUDED_FILES
    else match OpenFile(fs, Paths(Frames(before)), path)
      case Denied(e) => error == Some(e) && after == before && newCount == count
      case Opened(p) =>
        && error == None && newCount == count + 1 <= MAX_INCLUDED_FILES && ValidFiles(after)
        && Frames(after) == Frames(before) + [Frame(p, Lines(fs.regular[p]))]
        && OnDisk(after) == OnDisk(before) + |fs.regular[p]|
  }

  lemma {:induction false} TopFrame(files: seq<File>)
    requires ValidFiles(files) && files != []
    ensures |Frames(files)| == |files| &&
            Frames(files)[|files| - 1] == Frame(files[|files| - 1].path, Left(files[|files| - 1]))
    ensures Frames(files[..|files| - 1]) == Frames(files)[..|files| - 1]
  {
  }

  lemma {:induction false} NoFrames(files: seq<File>)
    requires ValidFiles(files)
    ensures Frames(files) == [] <==> files == []
  {
  }

  lemma {:induction false} SpentIsTrimmed(files: seq<File>)
    requires ValidFiles(files) && files != [] && files[|files| - 1].eof
    ensures Trim(Frames(files[..|files| - 1])) == Trim(Frames(files))
  {
    TopFrame(files);
  }

  lemma {:induction false} UnspentIsTrimmed(files: seq<File>)
    requires ValidFiles(files) && (files != [] ==> !files[|files| - 1].eof)
    ensures Trim(Frames(files)) == Frames(files)
  {
    hide Left, Frames, Trim;
    NoFrames(files);
    TrimIs(Frames(files));
    if files != [] {
      TopFrame(files);
      LeftNotEmpty(files[|files| - 1]);
    }
  }

  lemma {:induction false} TrimIs(frames: seq<Frame>)
    ensures frames == [] || frames[|frames| - 1].left != [] ==> Trim(frames) == frames
  {
  }

  lemma {:induction false} LeftNotEmpty(f: File)
    requires ValidFile(f) && !f.eof
    ensures Left(f) != []
  {
  }

  /** A trimmed stack has lines left in its top file. */
  lemma {:induction false} NotSpent(files: seq<File>)
    requires ValidFiles(files) && files != [] && (exists frames :: Trim(frames) == Frames(files))
    ensures !files[|files| - 1].eof
  {
    TopFrame(files);
  }

  lemma {:induction false} FramesAdvance(files: seq<File>, f: File, line: bytes)
    requires ValidFiles(files) && files != [] && ValidFile(f) && f.path == files[|files| - 1].path
    requires Left(files[|files| - 1]) == [line] + Left(f)
    ensures Frames(files)[|files| - 1].left == [line] + Left(f)
    ensures Frames(files[|files| - 1 := f]) == Advanced(Frames(files))
  {
    hide Left;
    assert ([line] + Left(f))[1..] == Left(f);
  }

  lemma {:induction false} PathsOfFiles(files: seq<File>)
    requires ValidFiles(files)
    ensures |Paths(Frames(files))| == |files|
    ensures forall i :: 0 <= i < |files| ==> Paths(Frames(files))[i] == files[i].path
  {
    PathsAre(Frames(files));
  }

  lemma {:induction false} PathsAre(frames: seq<Frame>)
    ensures forall i :: 0 <= i < |frames| ==> Paths(frames)[i] == frames[i].path
  {
    if frames != [] {
      PathsAre(frames[..|frames| - 1]);
    }
  }

  lemma {:induction false} SourceIsTop(files: seq<File>)
    requires ValidFiles(files) && files != []
    ensures |Paths(Frames(files))| == |files| && Paths(Frames(files))[|files| - 1] == files[|files| - 1].path
  {
    PathsOfFiles(files);
  }

  lemma {:induction false} NewFileLeft(files: seq<File>, f: File)
    requires ValidFiles(files) && f.offset == 0 && f.length == 0 && !f.eof && f.lastBreak == 0
    ensures ValidFiles(files + [f]) && Frames(files + [f]) == Frames(files) + [Frame(f.path, Lines(f.unread))]
    ensures OnDisk(files + [f]) == OnDisk(files) + |f.unread|
  {
    assert (files + [f])[..|files|] == files;
    assert Buffered(f) + f.unread == f.unread;
  }

  function Filled(f: File, data: bytes): File
    requires data <= f.unread
  {
    f.(buffer := data, offset := 0, length := |data|, unread := f.unread[|data|..])
  }
}

/**
 The scan-source plugin: PollChanges and the three readers it uses.  The log on disk is whatever
 each system call finds there, so a poll takes one Disk per open or stat; how read calls split the
 file into blocks is a parameter too.
 */
module ScanSource {
  import opened Bytes
  import opened ChangeLog
  import opened Decimal
  import opened Lists
  import opened Wrappers

  const CHANGES_FILE_KEY := "changes_file"
  const BLOCK_SIZE: nat := 64 * 1024

  /** What a system call finds at the path.  A fault makes reading fail from that offset on, also
      when it lies at or past the end of the content. */
  datatype Disk = Missing | Denied | Present(content: seq<byte>, fault: Option<nat>)

  datatype Status = Ok | Eof | Fail

  datatype PollError = NotConfigured | NotFound | StatFailed | OpenFailed | ReadFailed

  /** What readAppended returns: the non-blank lines and the offset past the last complete line. */
  datatype Appended = Appended(lines: seq<seq<byte>>, next: nat)

  datatype Response = Response(nextMarker: string, changes: seq<Change>)

  /** How far a file can be read. */
  function Limit(content: seq<byte>, fault: Option<nat>): (n: nat)
    ensures n <= |content|
  {
    if fault.Some? && fault.value < |content| then fault.value else |content|
  }

  function AtLimit(fault: Option<nat>): Status { if fault.Some? then Fail else Eof }

  // ---------- what a poll answers, by what the system calls find ----------

  /** The bytes from offset o on; seeking past the end leaves nothing to read. */
  function Rest(c: seq<byte>, o: nat): seq<byte> { if o <= |c| then c[o..] else [] }

  /** The texts of the complete lines from o on, and where the last of those lines ends. */
  function TextsFrom(c: seq<byte>, o: nat): seq<seq<byte>> { FlatMap(Text, Lines(Rest(c, o))) }

  function EndFrom(c: seq<byte>, o: nat): nat { o + CompleteEnd(Rest(c, o)) }

  function TailOf(disk: Disk, o: nat): Result<Appended, PollError> {
    match disk
    case Present(c, None) => Success(Appended(TextsFrom(c, o), EndFrom(c, o)))
    case Present(_, Some(_)) => Failure(ReadFailed)
    case _ => Failure(OpenFailed)
  }

  function EndOf(disk: Disk): Result<nat, PollError> {
    match disk
    case Present(c, None) => Success(CompleteEnd(c))
    case Present(_, Some(_)) => Failure(ReadFailed)
    case _ => Failure(OpenFailed)
  }

  /** The offset a marker denotes; None for one this plugin cannot have written. */
  function StoredOffset(marker: string): Option<nat> {
    match ParseInt64(marker)
    case Some(n) => if n >= 0 then Some(n) else None
    case None => None
  }

  /** Where reading resumes for a stored offset: there, or at 0 when the log was truncated. */
  function ResumeAt(o: nat, size: nat, peek: Disk): Result<nat, PollError> {
    if o > size || o == 0 then Success(0)
    else match peek
      case Present(c, fault) =>
        if o > Limit(c, fault) then Failure(ReadFailed)
        else Success(if c[o - 1] == NEWLINE then o else 0)
      case _ => Failure(OpenFailed)
  }

  /** A poll that starts from now. */
  function Resync(read: Disk): Result<Response, PollError> {
    match EndOf(read)
    case Success(end) => Success(Response(FormatInt(end), []))
    case Failure(e) => Failure(e)
  }

  /** A poll that reports what follows offset o. */
  function Report(read: Disk, o: nat): Result<Response, PollError> {
    match TailOf(read, o)
    case Success(tail) => Success(Response(FormatInt(tail.next), Changes(Rest(read.content, o))))
    case Failure(e) => Failure(e)
  }

  /** What a poll does once it has looked at its marker and at the file. */
  datatype Plan = AwaitFirstWrite | FromNow | From(offset: nat)

  function PlanOf(marker: string, stat: Disk, peek: Disk): Result<Plan, PollError> {
    match stat
    case Missing => if marker == "" || marker == "0" then Success(AwaitFirstWrite) else Failure(NotFound)
    case Denied => Failure(StatFailed)
    case Present(seen, _) =>
      match StoredOffset(marker)
      case None => Success(FromNow)
      case Some(o) =>
        match ResumeAt(o, |seen|, peek)
        case Failure(e) => Failure(e)
        case Success(from) => Success(From(from))
  }

  /** A poll of a configured source. */
  function Poll(marker: string, stat: Disk, peek: Disk, read: Disk): Result<Response, PollError> {
    match PlanOf(marker, stat, peek)
    case Failure(e) => Failure(e)
    case Success(AwaitFirstWrite) => Success(Response("0", []))
    case Success(FromNow) => Resync(read)
    case Success(From(o)) => Report(read, o)
  }

  // ---------- the readers ----------

  /** bufio.Reader over the log, positioned by Seek. */
  class LineReader {
    const content: seq<byte>
    const fault: Option<nat>
    var pos: nat

    constructor (content: seq<byte>, fault: Option<nat>, offset: nat)
      ensures this.content == content && this.fault == fault && pos == offset
    {
      this.content, this.fault, pos := content, fault, offset;
    }

    /** ReadString('\n'): the next complete line, or the reason there is none. */
    method ReadString() returns (raw: seq<byte>, status: Status)
      modifies this`pos
      ensures status == Ok ==> IsLine(raw) && pos == old(pos) + |raw| <= |content| && raw == content[old(pos)..pos]
      ensures status == Ok ==> pos <= Limit(content, fault)
      ensures status != Ok ==>
                && status == AtLimit(fault)
                && forall k | old(pos) <= k < Limit(content, fault) :: content[k] != NEWLINE
    {
      var start := pos;
      while pos < Limit(content, fault)
        invariant start <= pos && (pos == start || pos <= Limit(content, fault))
        invariant forall k | start <= k < pos :: content[k] != NEWLINE
      {
        pos := pos + 1;
        if content[pos - 1] == NEWLINE {
          return content[start..pos], Ok;
        }
      }
      raw := if start <= |content| then content[start..pos] else [];
      status := AtLimit(fault);
    }
  }

  /** Lines read one after another up to a point with no newline behind it are all there are. */
  lemma ReadAll(disk: Disk, offset: nat, next: nat, raws: seq<seq<byte>>, lines: seq<seq<byte>>)
    requires disk.Present? && disk.fault.None?
    requires ReadSoFar(disk.content, offset, next, raws, lines)
    requires forall k | next <= k < |disk.content| :: disk.content[k] != NEWLINE
    ensures TailOf(disk, offset) == Success(Appended(lines, next))
  {
    NoNewlineLeft(disk.content, next);
    AllFrom(disk.content, offset, raws, Rest(disk.content, next));
  }

  lemma NoNewlineLeft(c: seq<byte>, next: nat)
    requires forall k | next <= k < |c| :: c[k] != NEWLINE
    ensures forall k | 0 <= k < |Rest(c, next)| :: Rest(c, next)[k] != NEWLINE
  {
    assert forall k | 0 <= k < |Rest(c, next)| :: Rest(c, next)[k] == c[next + k];
  }

  lemma AllFrom(c: seq<byte>, offset: nat, raws: seq<seq<byte>>, rest: seq<byte>)
    requires forall k | 0 <= k < |raws| :: IsLine(raws[k])
    requires forall k | 0 <= k < |rest| :: rest[k] != NEWLINE
    requires Join(raws) + rest == Rest(c, offset)
    ensures TextsFrom(c, offset) == FlatMap(Text, raws)
    ensures EndFrom(c, offset) == offset + |Join(raws)|
  {
    AllLines(raws, rest);
  }

  /** raws are the complete lines from offset to next, and lines their texts. */
  ghost predicate ReadSoFar(c: seq<byte>, offset: nat, next: nat, raws: seq<seq<byte>>, lines: seq<seq<byte>>) {
    && (forall k | 0 <= k < |raws| :: IsLine(raws[k]))
    && lines == FlatMap(Text, raws)
    && Join(raws) + Rest(c, next) == Rest(c, offset)
    && next == offset + |Join(raws)|
  }

  lemma ReadOneMore(c: seq<byte>, offset: nat, next: nat, raws: seq<seq<byte>>, lines: seq<seq<byte>>, raw: seq<byte>)
    requires ReadSoFar(c, offset, next, raws, lines)
    requires IsLine(raw) && next + |raw| <= |c| && raw == c[next..next + |raw|]
    ensures ReadSoFar(c, offset, next + |raw|, raws + [raw],
                      if TrimSpace(raw) == [] then lines else lines + [TrimSpace(raw)])
  {
    var rest, after := Rest(c, next), Rest(c, next + |raw|);
    assert rest == raw + after;
    JoinSnoc(raws, raw);
    MoveAcross(Join(raws), raw, after);
    MoveAcross(lines, [], []);
    FlatMapSnoc(Text, raws, raw);
  }

  /** readAppended: the non-blank complete lines after offset and the offset just past the last. */
  method ReadAppended(disk: Disk, offset: nat) returns (r: Result<Appended, PollError>)
    ensures r == TailOf(disk, offset)
  {
    if !disk.Present? {
      return Failure(OpenFailed);
    }
    var reader := new LineReader(disk.content, disk.fault, offset);
    var lines: seq<seq<byte>> := [];
    var next := offset;
    ghost var raws: seq<seq<byte>> := [];
    while true
      invariant reader.content == disk.content && reader.fault == disk.fault && reader.pos == next
      invariant ReadSoFar(disk.content, offset, next, raws, lines)
      decreases |disk.content| - next
    {
      var raw, status := reader.ReadString();
      if status == Eof {
        ReadAll(disk, offset, next, raws, lines);
        return Success(Appended(lines, next));
      }
      if status == Fail {
        return Failure(ReadFailed);
      }
      ReadOneMore(disk.content, offset, next, raws, lines, raw);
      next, raws := next + |raw|, raws + [raw];
      var line := TrimSpace(raw);
      if line != [] {
        lines := lines + [line];
      }
    }
  }

  /** The index of the last newline, or -1: bytes.LastIndexByte(s, '\n'). */
  function LastNewline(s: seq<byte>): (i: int)
    ensures -1 <= i < |s|
    ensures i >= 0 ==> s[i] == NEWLINE
    ensures forall k | i < k < |s| :: s[k] != NEWLINE
  {
    if s == [] then -1
    else if s[|s| - 1] == NEWLINE then |s| - 1
    else LastNewline(s[..|s| - 1])
  }

  /** The open log read in blocks.  splits says how many bytes successive Read calls offer (0 is
      allowed); eager delivers the end of the file together with the last bytes. */
  class BlockReader {
    const content: seq<byte>
    const fault: Option<nat>
    const eager: bool
    var splits: seq<nat>
    var pos: nat

    constructor (content: seq<byte>, fault: Option<nat>, splits: seq<nat>, eager: bool)
      ensures this.content == content && this.fault == fault && pos == 0
    {
      this.content, this.fault, this.splits, this.eager, pos := content, fault, splits, eager, 0;
    }

    method Read(buf: array<byte>) returns (n: nat, status: Status)
      requires buf.Length > 0 && pos <= Limit(content, fault)
      modifies this`pos, this`splits, buf
      ensures n <= buf.Length && pos == old(pos) + n <= Limit(content, fault)
      ensures buf[..n] == content[old(pos)..pos]
      ensures status != Ok ==> status == AtLimit(fault) && pos == Limit(content, fault)
      ensures status == Ok ==> |splits| < old(|splits|) || (|splits| == old(|splits|) && old(pos) < pos)
    {
      var left := Limit(content, fault) - pos;
      var offered := if splits != [] then splits[0] else buf.Length;
      n := if offered < buf.Length then offered else buf.Length;
      n := if n < left then n else left;
      if left > 0 && splits != [] {
        splits := splits[1..];
      }
      forall i | 0 <= i < n {
        buf[i] := content[pos + i];
      }
      pos := pos + n;
      status := if left == 0 || (eager && n == left) then AtLimit(fault) else Ok;
    }
  }

  /** end is the last boundary of c at or before pos. */
  predicate LastBoundary(c: seq<byte>, pos: nat, end: nat) {
    && end <= pos <= |c| && Boundary(c, end)
    && forall k | end <= k < pos :: c[k] != NEWLINE
  }

  lemma OneMoreBlock(c: seq<byte>, pos: nat, end: nat, block: seq<byte>)
    requires LastBoundary(c, pos, end) && pos + |block| <= |c| && block == c[pos..pos + |block|]
    ensures LastBoundary(c, pos + |block|, if LastNewline(block) >= 0 then pos + LastNewline(block) + 1 else end)
  {
    assert forall k | pos <= k < pos + |block| :: c[k] == block[k - pos];
  }

  /** completeLinesEnd: reads in blocks into one reused buffer, keeping only the end of the last
      complete line.  The answer does not depend on how the blocks fall. */
  method CompleteLinesEnd(disk: Disk, splits: seq<nat>, eager: bool) returns (r: Result<nat, PollError>)
    ensures r == EndOf(disk)
  {
    if !disk.Present? {
      return Failure(OpenFailed);
    }
    var f := new BlockReader(disk.content, disk.fault, splits, eager);
    var end, pos: nat := 0, 0;
    var buf := new byte[BLOCK_SIZE];
    while true
      invariant f.content == disk.content && f.fault == disk.fault && f.pos == pos <= Limit(disk.content, disk.fault)
      invariant LastBoundary(disk.content, pos, end)
      decreases |f.splits|, |disk.content| - pos
    {
      var n, status := f.Read(buf);
      var i := LastNewline(buf[..n]);
      OneMoreBlock(disk.content, pos, end, buf[..n]);
      if i >= 0 {
        end := pos + i + 1;
      }
      pos := pos + n;
      if status == Eof {
        CompleteEndUnique(disk.content, end);
        return Success(end);
      }
      if status == Fail {
        return Failure(ReadFailed);
      }
    }
  }

  /** The block scan and the line scan from the start agree on where the last line ends. */
  lemma ScansAgree(disk: Disk)
    ensures EndOf(disk).Success? <==> TailOf(disk, 0).Success?
    ensures EndOf(disk).Success? ==> EndOf(disk).value == TailOf(disk, 0).value.next
    ensures EndOf(disk).Success? ==> EndsLastLine(disk.content, EndOf(disk).value)
  {
    assert EndOf(disk).Success? ==> disk.content[0..] == disk.content;
  }

  /** followsNewline: whether the byte just before offset is a newline. */
  method FollowsNewline(disk: Disk, offset: nat) returns (r: Result<bool, PollError>)
    requires offset > 0
    ensures match disk
            case Present(c, fault) =>
              r == if offset > Limit(c, fault) then Failure(ReadFailed) else Success(Boundary(c, offset))
            case _ => r == Failure(OpenFailed)
  {
    if !disk.Present? {
      return Failure(OpenFailed);
    }
    if offset - 1 >= Limit(disk.content, disk.fault) {
      return Failure(ReadFailed);
    }
    return Success(disk.content[offset - 1] == NEWLINE);
  }

  /** resyncToEnd. */
  method ResyncToEnd(disk: Disk, splits: seq<nat>, eager: bool) returns (r: Result<Response, PollError>)
    ensures r == Resync(disk)
  {
    var end := CompleteLinesEnd(disk, splits, eager);
    if end.Failure? {
      return Failure(end.error);
    }
    return Success(Response(FormatInt(end.value), []));
  }

  lemma {:induction false} ChangesFromTexts(ls: seq<seq<byte>>)
    ensures FlatMap(t => [ChangeFor(t)], FlatMap(Text, ls)) == FlatMap(Announced, ls)
  {
    var single := (t: seq<byte>) => [ChangeFor(t)];
    if ls != [] {
      ChangesFromTexts(ls[1..]);
      FlatMapSplit(single, Text(ls[0]), FlatMap(Text, ls[1..]));
      if Text(ls[0]) != [] {
        assert FlatMap(single, Text(ls[0])) == single(Text(ls[0])[0]) + FlatMap(single, Text(ls[0])[1..]);
      }
    }
  }

  /** The loop that fills the changes of a response. */
  method ChangesForLines(lines: seq<seq<byte>>) returns (changes: seq<Change>)
    ensures changes == FlatMap(t => [ChangeFor(t)], lines)
  {
    changes := [];
    ghost var single := (t: seq<byte>) => [ChangeFor(t)];
    for i := 0 to |lines|
      invariant changes == FlatMap(single, lines[..i])
    {
      FlatMapSnoc(single, lines[..i], lines[i]);
      assert lines[..i] + [lines[i]] == lines[..i + 1];
      changes := changes + [ChangeFor(lines[i])];
    }
    assert lines[..|lines|] == lines;
  }

  /** PollChanges. */
  method PollChanges(config: map<string, seq<byte>>, marker: string, stat: Disk, peek: Disk, read: Disk,
                     splits: seq<nat>, eager: bool) returns (r: Result<Response, PollError>)
    ensures CHANGES_FILE_KEY !in config || TrimSpace(config[CHANGES_FILE_KEY]) == [] ==> r == Failure(NotConfigured)
    ensures CHANGES_FILE_KEY in config && TrimSpace(config[CHANGES_FILE_KEY]) != [] ==>
              r == Poll(marker, stat, peek, read)
  {
    var path := if CHANGES_FILE_KEY in config then TrimSpace(config[CHANGES_FILE_KEY]) else [];
    assert TrimSpace([]) == [];
    if path == [] {
      return Failure(NotConfigured);
    }
    if stat == Missing {
      if marker == "" || marker == "0" {
        return Success(Response("0", []));
      }
      return Failure(NotFound);
    }
    if stat == Denied {
      return Failure(StatFailed);
    }
    var size := |stat.content|;
    if marker == "" {
      r := ResyncToEnd(read, splits, eager);
      return;
    }
    var parsed := ParseInt64(marker);
    if parsed.None? || parsed.value < 0 {
      r := ResyncToEnd(read, splits, eager);
      return;
    }
    var offset: nat := parsed.value;
    if offset > size {
      offset := 0;
    } else if offset > 0 {
      var atLineStart := FollowsNewline(peek, offset);
      if atLineStart.Failure? {
        return Failure(atLineStart.error);
      }
      if !atLineStart.value {
        offset := 0;
      }
    }
    assert PlanOf(marker, stat, peek) == Success(From(offset));
    var tail := ReadAppended(read, offset);
    if tail.Failure? {
      return Failure(tail.error);
    }
    var changes := ChangesForLines(tail.value.lines);
    ChangesFromTexts(Lines(Rest(read.content, offset)));
    return Success(Response(FormatInt(tail.value.next), changes));
  }
}

/**
 The storage fixture: entry lookup, stat, paged listings and chunked reads of one in-memory book.
 Size, offset and length are int64, so every sum below is also shown not to overflow.
 */
module Storage {
  import opened Decimal
  import opened Wrappers

  newtype byte = b: int | 0 <= b < 256
  newtype int64 = n: int | -0x8000_0000_0000_0000 <= n <= MAX_INT64
  newtype uint32 = n: int | 0 <= n <= 0xffff_ffff

  const SCALE_ENTRIES: nat := 2_000_000
  const PAGE_LIMIT: nat := 512
  const CHUNK_SIZE: nat := 128 * 1024
  const READ_LIMIT: nat := 8 * 1024 * 1024

  datatype Kind = File | Directory

  datatype Entry = Entry(id: string, name: string, logicalPath: string, kind: Kind, size: nat, revision: string)

  datatype Code = NotFound | InvalidArgument | FailedPrecondition | Unavailable | Cancelled | SendFailed

  datatype Page = Page(entries: seq<Entry>, nextCursor: string, complete: bool)

  datatype Chunk = Chunk(offset: int64, data: seq<byte>, eof: bool)

  datatype ReadRequest = ReadRequest(source: string, id: string, revision: string, offset: int64, length: int64)

  predicate IsScale(source: string) { source == "scale" || source == "scale-failure" }

  function BookId(n: nat): string { "book-" + Pad7(n) }

  function TrimBookPrefix(id: string): string { if "book-" <= id then id[5..] else id }

  function FileEntry(id: string, size: nat): Entry {
    Entry(id, id + ".epub", id + ".epub", File, size, "v1")
  }

  /** provider.entry, for a book of the given size. */
  function EntryOf(source: string, id: string, size: nat): (r: Result<Entry, Code>)
    ensures r.Success? ==> r.value.id == id && r.value.revision == "v1"
    ensures r.Success? ==> (r.value.kind == Directory <==> id in {"root", "chapters"})
    ensures r.Success? ==> r.value.size == if r.value.kind == Directory then 0 else size
    ensures r.Failure? ==> r.error == NotFound
  {
    if IsScale(source) then
      if id == "root" then Success(Entry("root", "root", "", Directory, 0, "v1"))
      else match ParseInt64(TrimBookPrefix(id))
        case None => Failure(NotFound)
        case Some(n) =>
          if n < 0 || n >= SCALE_ENTRIES || BookId(n) != id then Failure(NotFound)
          else Success(FileEntry(id, size))
    else if source != "fixture" then Failure(NotFound)
    else if id in {"book", "revision-conflict", "duplicate", "short", "blocking"} then Success(FileEntry(id, size))
    else if id in {"root", "chapters"} then Success(Entry(id, id, id, Directory, 0, "v1"))
    else Failure(NotFound)
  }

  /** Files are named after their ids, with the extension; directories bear the bare id. */
  lemma EntryNames(source: string, id: string, size: nat)
    requires EntryOf(source, id, size).Success?
    ensures var entry := EntryOf(source, id, size).value;
            entry.name == if id in {"root", "chapters"} then id else id + ".epub"
    ensures EntryOf(source, id, size).value.logicalPath
            == if IsScale(source) && id == "root" then "" else EntryOf(source, id, size).value.name
  {
  }

  /** provider.Stat. */
  function StatOf(source: string, id: string, revision: string, size: nat): Result<Entry, Code> {
    if revision == "" then Failure(InvalidArgument)
    else match EntryOf(source, id, size)
      case Failure(code) => Failure(code)
      case Success(entry) => if revision != entry.revision then Failure(FailedPrecondition) else Success(entry)
  }

  // ---------- canonical ids ----------

  /** Of all strings, only the seven-digit rendering of a number in range names a scale book,
      although the parser also takes signs, short forms and ids without the prefix. */
  lemma CanonicalIds(source: string, id: string, size: nat)
    requires IsScale(source)
    ensures EntryOf(source, id, size).Success?
            <==> id == "root" || exists n: nat :: n < SCALE_ENTRIES && id == BookId(n)
    ensures EntryOf(source, id, size).Success? && id != "root" ==>
              EntryOf(source, id, size).value == FileEntry(id, size)
  {
    if n: nat :| n < SCALE_ENTRIES && id == BookId(n) {
      BookIdParses(n);
    }
  }

  lemma BookIdParses(n: nat)
    requires n < SCALE_ENTRIES
    ensures TrimBookPrefix(BookId(n)) == Pad7(n) && ParseInt64(Pad7(n)) == Some(n)
    ensures BookId(n) != "root"
  {
    PrintedParsesBack(n, 7);
    assert BookId(n)[5..] == Pad7(n);
    assert BookId(n)[0] == 'b';
  }

  lemma OneMoreBook(source: string, start: nat, i: nat, size: nat)
    requires IsScale(source) && start <= i < SCALE_ENTRIES
    ensures EntryOf(source, BookId(i), size) == Success(Listed(BookId(i), size))
    ensures Listing(ScaleIds()[start..i + 1], size)
            == Listing(ScaleIds()[start..i], size) + [Listed(BookId(i), size)]
  {
    ScaleBook(source, i, size);
    ListOneMore(ScaleIds(), start, i, size);
  }

  lemma ScaleBook(source: string, n: nat, size: nat)
    requires IsScale(source) && n < SCALE_ENTRIES
    ensures EntryOf(source, BookId(n), size) == Success(Listed(BookId(n), size))
  {
    BookIdParses(n);
  }

  /** Each number has its own id. */
  lemma BookIdsDiffer(m: nat, n: nat)
    requires BookId(m) == BookId(n)
    ensures m == n
  {
    assert BookId(m)[5..] == Pad7(m) && BookId(n)[5..] == Pad7(n);
  }

  // ---------- what a page of a directory is ----------

  /** The ids of the virtual namespace, in listing order. */
  function ScaleIds(): (ids: seq<string>)
    ensures |ids| == SCALE_ENTRIES
  {
    seq(SCALE_ENTRIES, (i: nat) => BookId(i))
  }

  /** The ids of a directory, in listing order. */
  function Children(source: string, directory: string): seq<string> {
    if IsScale(source) then ScaleIds()
    else if directory == "chapters" then []
    else ["book", "chapters"]
  }

  /** Why a listing is refused before its cursor is looked at. */
  function DirectoryCheck(source: string, directory: string, size: nat): Option<Code> {
    if IsScale(source) then (if directory == "root" then None else Some(NotFound))
    else match EntryOf(source, directory, size)
      case Failure(code) => Some(code)
      case Success(entry) => if entry.kind == Directory then None else Some(InvalidArgument)
  }

  /** The position a cursor stands for among total children; the empty cursor is the first page. */
  function CursorStart(cursor: string, total: nat): Option<nat> {
    if cursor == "" then Some(0)
    else match ParseInt64(cursor)
      case Some(n) => if 0 <= n <= total then Some(n) else None
      case None => None
  }

  function PageSize(maxEntries: uint32): (n: nat)
    ensures 1 <= n <= PAGE_LIMIT
    ensures 1 <= maxEntries as int <= PAGE_LIMIT ==> n == maxEntries as int
  {
    if maxEntries == 0 || maxEntries as int > PAGE_LIMIT then PAGE_LIMIT else maxEntries as int
  }

  function PageEnd(start: nat, maxEntries: uint32, total: nat): nat {
    if start + PageSize(maxEntries) > total then total else start + PageSize(maxEntries)
  }

  /** A child as a listing shows it. */
  function Listed(id: string, size: nat): Entry {
    if id == "chapters" then Entry(id, id, id, Directory, 0, "v1") else FileEntry(id, size)
  }

  function Listing(ids: seq<string>, size: nat): (entries: seq<Entry>)
    ensures |entries| == |ids|
  {
    if ids == [] then [] else Listing(ids[..|ids| - 1], size) + [Listed(ids[|ids| - 1], size)]
  }

  lemma {:induction false} ListingAt(ids: seq<string>, size: nat, i: nat)
    requires i < |ids|
    ensures Listing(ids, size)[i] == Listed(ids[i], size)
  {
    if i < |ids| - 1 {
      ListingAt(ids[..|ids| - 1], size, i);
    }
  }

  lemma ListOneMore(ids: seq<string>, start: nat, i: nat, size: nat)
    requires start <= i < |ids|
    ensures Listing(ids[start..i + 1], size) == Listing(ids[start..i], size) + [Listed(ids[i], size)]
  {
    assert ids[start..i + 1][..i - start] == ids[start..i];
  }

  /** The page of children [start, end) in order, whose cursor continues at end. */
  function PageOf(children: seq<string>, start: nat, end: nat, size: nat): Page
    requires start <= end <= |children|
  {
    Page(Listing(children[start..end], size), if end == |children| then "" else FormatInt(end), end == |children|)
  }

  /** The page of children a cursor and a limit ask for; a broken source fails after its first page. */
  function PageFor(children: seq<string>, cursor: string, maxEntries: uint32, broken: bool, size: nat)
    : Result<Page, Code>
  {
    match CursorStart(cursor, |children|)
    case None => Failure(InvalidArgument)
    case Some(start) =>
      if broken && start >= PAGE_LIMIT then Failure(Unavailable)
      else Success(PageOf(children, start, PageEnd(start, maxEntries, |children|), size))
  }

  /** What List answers. */
  function ListOf(source: string, directory: string, cursor: string, maxEntries: uint32, size: nat)
    : Result<Page, Code>
  {
    match DirectoryCheck(source, directory, size)
    case Some(code) => Failure(code)
    case None => PageFor(Children(source, directory), cursor, maxEntries, source == "scale-failure", size)
  }

  // ---------- what a read sends ----------

  /** How many chunks a range takes when each is as large as allowed. */
  function ChunkCount(from: nat, end: nat): nat
    requires from <= end
  {
    (end - from + CHUNK_SIZE - 1) / CHUNK_SIZE
  }

  /** The k-th of them; only the last reaches the end of the range. */
  function ChunkAt(book: seq<byte>, from: nat, end: nat, k: nat): Chunk
    requires from <= end <= |book| && |book| <= MAX_INT64 && k < ChunkCount(from, end)
  {
    var offset := from + k * CHUNK_SIZE;
    var next := if offset + CHUNK_SIZE > end then end else offset + CHUNK_SIZE;
    Chunk(offset as int64, book[offset..next], next == end)
  }

  /** The k-th chunk, seen from the loop that is about to send it. */
  lemma NextChunk(book: seq<byte>, from: nat, end: nat, k: nat, offset: nat)
    requires from < end <= |book| && |book| <= MAX_INT64
    requires k < ChunkCount(from, end) && offset == from + k * CHUNK_SIZE
    ensures var next := if offset + CHUNK_SIZE > end then end else offset + CHUNK_SIZE;
            && offset < next <= end
            && Chunks(book, from, end)[k] == Chunk(offset as int64, book[offset..next], next == end)
            && if k + 1 < ChunkCount(from, end) then next == from + (k + 1) * CHUNK_SIZE < end else next == end
  {
  }

  function Chunks(book: seq<byte>, from: nat, end: nat): (chunks: seq<Chunk>)
    requires from <= end <= |book| && |book| <= MAX_INT64
    ensures |chunks| == ChunkCount(from, end)
  {
    seq(ChunkCount(from, end), (k: nat) requires k < ChunkCount(from, end) => ChunkAt(book, from, end, k))
  }

  function Without(chunk: Chunk): Chunk
    requires chunk.data != []
  {
    Chunk(chunk.offset, chunk.data[..|chunk.data| - 1], true)
  }

  /** The ids whose reads break the contract on purpose, and what they send for their first chunk. */
  predicate IsFaulty(id: string) { id == "short" || id == "duplicate" }

  function FaultyChunks(id: string, first: Chunk): seq<Chunk>
    requires first.data != []
  {
    if id == "short" then [Without(first)] else [first, first]
  }

  /** Everything a read does once its request is accepted: the chunks it sends, then how it ends. */
  datatype Script = Script(chunks: seq<Chunk>, end: Result<(), Code>)

  predicate RangeAccepted(book: seq<byte>, offset: int64, length: int64) {
    offset >= 0 && 0 <= length as int <= READ_LIMIT && offset as int + length as int <= |book|
  }

  function ScriptOf(book: seq<byte>, id: string, offset: int64, length: int64): Script
    requires RangeAccepted(book, offset, length) && |book| <= MAX_INT64
  {
    var from, end := offset as int, offset as int + length as int;
    if id == "revision-conflict" then Script([], Failure(FailedPrecondition))
    else if id == "blocking" then
      Script(if length > 0 then [Chunk(offset, book[from..from + 1], false)] else [], Failure(Cancelled))
    else if length == 0 then Script([Chunk(offset, [], true)], Success(()))
    else
      var chunks := Chunks(book, from, end);
      if IsFaulty(id) then Script(FaultyChunks(id, chunks[0]), Success(())) else Script(chunks, Success(()))
  }

  /** What a read does: the refusal its request calls for, or its range. */
  function ReadOf(book: seq<byte>, r: ReadRequest): Script
    requires |book| <= MAX_INT64
  {
    match StatOf(r.source, r.id, r.revision, |book|)
    case Failure(code) => Script([], Failure(code))
    case Success(entry) =>
      if entry.kind != File || !RangeAccepted(book, r.offset, r.length) then Script([], Failure(InvalidArgument))
      else ScriptOf(book, r.id, r.offset, r.length)
  }

  /** The part of ReadOf that follows a successful Stat. */
  lemma ReadOfFile(book: seq<byte>, r: ReadRequest)
    requires |book| <= MAX_INT64 && StatOf(r.source, r.id, r.revision, |book|).Success?
    ensures var isFile := StatOf(r.source, r.id, r.revision, |book|).value.kind == File;
            ReadOf(book, r)
            == if isFile && RangeAccepted(book, r.offset, r.length) then ScriptOf(book, r.id, r.offset, r.length)
               else Script([], Failure(InvalidArgument))
  {
  }

  lemma PlayedNothing(was: seq<Chunk>, budget: nat, r: Result<(), Code>)
    ensures Played(Script([], r), was, budget, was, r)
  {
    PlayedOut(Script([], r), was, budget);
    assert was + [] == was;
  }

  /** What is sent when the stream takes only budget more chunks, and the error the read returns. */
  predicate Plays(script: Script, budget: nat, sent: seq<Chunk>, r: Result<(), Code>) {
    if |script.chunks| <= budget then sent == script.chunks && r == script.end
    else sent == script.chunks[..budget] && r == Failure(SendFailed)
  }

  /** A stream that held was and took at most budget more chunks now holds what the script sends. */
  predicate Played(script: Script, was: seq<Chunk>, budget: nat, sent: seq<Chunk>, r: Result<(), Code>) {
    was <= sent && Plays(script, budget, sent[|was|..], r)
  }

  lemma PlayedOut(script: Script, was: seq<Chunk>, budget: nat)
    requires |script.chunks| <= budget
    ensures Played(script, was, budget, was + script.chunks, script.end)
  {
  }

  lemma PlayedPartly(script: Script, was: seq<Chunk>, done: seq<Chunk>)
    requires done < script.chunks
    ensures Played(script, was, |done|, was + done, Failure(SendFailed))
  {
  }

  lemma PrefixGrows<T>(all: seq<T>, n: nat)
    requires n < |all|
    ensures all[..n + 1] == all[..n] + [all[n]]
  {
  }

  // ---------- the provider ----------

  /** The server side of the response stream: it fails once budget chunks have gone out. */
  class ChunkStream {
    var sent: seq<Chunk>
    var budget: nat

    constructor (budget: nat)
      ensures sent == [] && this.budget == budget
    {
      sent, this.budget := [], budget;
    }

    method Send(chunk: Chunk) returns (ok: bool)
      modifies this
      ensures ok <==> old(budget) > 0
      ensures sent == if ok then old(sent) + [chunk] else old(sent)
      ensures budget == if ok then old(budget) - 1 else 0
    {
      ok := budget > 0;
      if ok {
        sent, budget := sent + [chunk], budget - 1;
      }
    }
  }

  /** The steps List and listScale share, which read a cursor and bound a page. */
  method ParseCursor(cursor: string, total: nat) returns (start: Option<nat>)
    ensures start == CursorStart(cursor, total)
  {
    if cursor == "" {
      return Some(0);
    }
    var parsed := ParseInt64(cursor);
    if parsed.None? || parsed.value < 0 || parsed.value > total {
      return None;
    }
    return Some(parsed.value);
  }

  method PageStop(start: nat, maxEntries: uint32, total: nat) returns (end: nat)
    requires start <= total
    ensures start <= end == PageEnd(start, maxEntries, total) <= total
  {
    var limit: nat := maxEntries as int;
    if limit == 0 || limit > PAGE_LIMIT {
      limit := PAGE_LIMIT;
    }
    end := start + limit;
    if end > total {
      end := total;
    }
  }

  class Provider {
    const book: seq<byte>

    /** The book is far smaller than an int64 can count, whatever chunk follows it. */
    predicate Valid() { |book| + CHUNK_SIZE <= MAX_INT64 }

    constructor (book: seq<byte>)
      ensures this.book == book
    {
      this.book := book;
    }

    method Stat(source: string, id: string, revision: string) returns (r: Result<Entry, Code>)
      ensures r == StatOf(source, id, revision, |book|)
    {
      if revision == "" {
        return Failure(InvalidArgument);
      }
      var entry := EntryOf(source, id, |book|);
      if entry.Failure? {
        return Failure(entry.error);
      }
      if revision != entry.value.revision {
        return Failure(FailedPrecondition);
      }
      return entry;
    }

    method List(source: string, directory: string, cursor: string, maxEntries: uint32)
      returns (r: Result<Page, Code>)
      ensures r == ListOf(source, directory, cursor, maxEntries, |book|)
    {
      if IsScale(source) {
        r := ListScale(source, directory, cursor, maxEntries);
        return;
      }
      var dir := EntryOf(source, directory, |book|);
      if dir.Failure? {
        return Failure(dir.error);
      }
      if dir.value.kind != Directory {
        return Failure(InvalidArgument);
      }
      var ids := ["book", "chapters"];
      if directory == "chapters" {
        ids := [];
      }
      var position := ParseCursor(cursor, |ids|);
      if position.None? {
        return Failure(InvalidArgument);
      }
      var start := position.value;
      var end := PageStop(start, maxEntries, |ids|);
      var entries := [];
      for i := start to end
        invariant entries == Listing(ids[start..i], |book|)
      {
        var entry := EntryOf("fixture", ids[i], |book|);
        if entry.Failure? {
          assert false;
        }
        ListOneMore(ids, start, i, |book|);
        entries := entries + [entry.value];
      }
      return Success(Page(entries, if end == |ids| then "" else FormatInt(end), end == |ids|));
    }

    method ListScale(source: string, directory: string, cursor: string, maxEntries: uint32)
      returns (r: Result<Page, Code>)
      requires IsScale(source)
      ensures directory != "root" ==> r == Failure(NotFound)
      ensures directory == "root" ==>
                r == PageFor(ScaleIds(), cursor, maxEntries, source == "scale-failure", |book|)
    {
      if directory != "root" {
        return Failure(NotFound);
      }
      var position := ParseCursor(cursor, SCALE_ENTRIES);
      if position.None? {
        return Failure(InvalidArgument);
      }
      var start := position.value;
      if source == "scale-failure" && start >= PAGE_LIMIT {
        return Failure(Unavailable);
      }
      var end := PageStop(start, maxEntries, SCALE_ENTRIES);
      var entries := ScalePage(source, start, end);
      r := Success(Page(entries, if end == SCALE_ENTRIES then "" else FormatInt(end), end == SCALE_ENTRIES));
      assert r == Success(PageOf(ScaleIds(), start, end, |book|));
    }

    /** Generates only the requested page of the virtual namespace. */
    method ScalePage(source: string, start: nat, end: nat) returns (entries: seq<Entry>)
      requires IsScale(source) && start <= end <= SCALE_ENTRIES
      ensures entries == Listing(ScaleIds()[start..end], |book|)
    {
      entries := [];
      for i := start to end
        invariant entries == Listing(ScaleIds()[start..i], |book|)
      {
        OneMoreBook(source, start, i, |book|);
        var entry := EntryOf(source, BookId(i), |book|);
        if entry.Failure? {
          assert false;
        }
        entries := entries + [entry.value];
      }
    }

    method Read(r: ReadRequest, stream: ChunkStream) returns (end: Result<(), Code>)
      requires Valid()
      modifies stream
      ensures Played(ReadOf(book, r), old(stream.sent), old(stream.budget), stream.sent, end)
    {
      var stat := Stat(r.source, r.id, r.revision);
      if stat.Failure? {
        PlayedNothing(stream.sent, stream.budget, Failure(stat.error));
        return Failure(stat.error);
      }
      ReadOfFile(book, r);
      var size := |book| as int64;
      if || stat.value.kind != File || r.offset < 0 || r.length < 0 || r.length as int > READ_LIMIT
         || r.offset > size || r.length > size - r.offset
      {
        PlayedNothing(stream.sent, stream.budget, Failure(InvalidArgument));
        return Failure(InvalidArgument);
      }
      end := SendFile(r.id, r.offset, r.length, stream);
    }

    /** Read, once the request has passed its checks. */
    method SendFile(id: string, offset: int64, length: int64, stream: ChunkStream) returns (end: Result<(), Code>)
      requires Valid() && RangeAccepted(book, offset, length)
      modifies stream
      ensures Played(ScriptOf(book, id, offset, length), old(stream.sent), old(stream.budget), stream.sent, end)
    {
      if id == "revision-conflict" {
        return Failure(FailedPrecondition);
      }
      if id == "blocking" {
        if length > 0 {
          var ok := stream.Send(Chunk(offset, book[offset as int..offset as int + 1], false));
          if !ok {
            return Failure(SendFailed);
          }
        }
        return Failure(Cancelled);
      }
      var stop := offset + length;
      if length == 0 {
        var ok := stream.Send(Chunk(offset, [], true));
        return if ok then Success(()) else Failure(SendFailed);
      }
      end := SendRange(id, offset, stop, stream);
    }

    /** What the loop of Read does for the two faulty ids, which leave it in its first round. */
    method SendFaulty(id: string, first: Chunk, stream: ChunkStream) returns (end: Result<(), Code>)
      requires first.data != [] && IsFaulty(id)
      modifies stream
      ensures Played(Script(FaultyChunks(id, first), Success(())),
                     old(stream.sent), old(stream.budget), stream.sent, end)
    {
      var chunk := first;
      if id == "short" {
        chunk := Chunk(chunk.offset, chunk.data[..|chunk.data| - 1], true);
      }
      var ok := stream.Send(chunk);
      if !ok {
        return Failure(SendFailed);
      }
      if id == "duplicate" {
        ok := stream.Send(chunk);
        return if ok then Success(()) else Failure(SendFailed);
      }
      return Success(());
    }

    /** The loop of Read over a range that is not empty. */
    method SendRange(id: string, from: int64, stop: int64, stream: ChunkStream) returns (end: Result<(), Code>)
      requires Valid() && id !in {"revision-conflict", "blocking"}
      requires 0 <= from < stop && RangeAccepted(book, from, stop - from)
      modifies stream
      ensures Played(ScriptOf(book, id, from, stop - from), old(stream.sent), old(stream.budget), stream.sent, end)
    {
      var offset := from;
      ghost var script := ScriptOf(book, id, from, stop - from);
      ghost var all := Chunks(book, from as int, stop as int);
      ghost var was, budget, n := stream.sent, stream.budget, 0;
      while offset < stop
        invariant n <= |all| && offset <= stop
        invariant if n < |all| then offset as int == from as int + n * CHUNK_SIZE < stop as int else offset == stop
        invariant IsFaulty(id) ==> n == 0
        invariant stream.sent == was + all[..n]
        invariant n <= budget && stream.budget == budget - n
        decreases stop - offset
      {
        var next := offset + CHUNK_SIZE as int64;
        if next > stop {
          next := stop;
        }
        var chunk := Chunk(offset, book[offset as int..next as int], next == stop);
        NextChunk(book, from as int, stop as int, n, offset as int);
        if IsFaulty(id) {
          end := SendFaulty(id, chunk, stream);
          return;
        }
        var ok := stream.Send(chunk);
        if !ok {
          PlayedPartly(script, was, all[..n]);
          return Failure(SendFailed);
        }
        PrefixGrows(all, n);
        n := n + 1;
        offset := next;
      }
      assert all[..n] == script.chunks;
      PlayedOut(script, was, budget);
      return Success(());
    }
  }
}

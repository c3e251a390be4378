/**
 What the storage contract promises its host, proved of the fixture: following cursors visits a
 directory exactly once, listed entries stat back, and a successful read delivers its range.
 */
module StorageLaws {
  import opened Decimal
  import opened Storage
  import opened Wrappers

  // ---------- following cursors ----------

  datatype Ending = Done | More(cursor: string) | Refused(code: Code)

  datatype Visit = Visit(entries: seq<Entry>, ending: Ending)

  /** A host that lists from a cursor on, choosing a limit for each page, until the listing is
      complete, is refused, or the host stops. */
  function Session(source: string, directory: string, cursor: string, limits: seq<uint32>, size: nat): Visit
    decreases |limits|
  {
    if limits == [] then Visit([], More(cursor))
    else match ListOf(source, directory, cursor, limits[0], size)
      case Failure(code) => Visit([], Refused(code))
      case Success(page) =>
        if page.complete then Visit(page.entries, Done)
        else
          var rest := Session(source, directory, page.nextCursor, limits[1..], size);
          Visit(page.entries + rest.entries, rest.ending)
  }

  /** The cursor stands for position start of a listing. */
  predicate PointsAt(cursor: string, start: nat) { cursor == FormatInt(start) || (cursor == "" && start == 0) }

  /** The visit from start listed the children up to end, and how it stopped says where end is. */
  predicate Covered(v: Visit, children: seq<string>, start: nat, end: nat, broken: bool, size: nat) {
    && start <= end <= |children|
    && v.entries == Listing(children[start..end], size)
    && (broken && start < 2 * PAGE_LIMIT ==> end < 2 * PAGE_LIMIT)
    && match v.ending
       case Done => end == |children|
       case More(cursor) => PointsAt(cursor, end)
       case Refused(code) => broken && code == Unavailable && PAGE_LIMIT <= end
  }

  lemma {:induction false} ListingJoins(a: seq<string>, b: seq<string>, size: nat)
    ensures Listing(a + b, size) == Listing(a, size) + Listing(b, size)
  {
    if b == [] {
      assert a + b == a;
    } else {
      var front, last := b[..|b| - 1], b[|b| - 1];
      var all := a + b;
      assert all[|all| - 1] == last && all[..|all| - 1] == a + front;
      ListingJoins(a, front, size);
      assert Listing(all, size) == (Listing(a, size) + Listing(front, size)) + [Listed(last, size)];
    }
  }

  lemma CursorPoints(cursor: string, start: nat, total: nat)
    requires PointsAt(cursor, start) && start <= total <= MAX_INT64
    ensures CursorStart(cursor, total) == Some(start)
  {
    PrintedParsesBack(start, 1);
  }

  /** The same session over the children of a directory that can be listed. */
  function Follow(children: seq<string>, cursor: string, limits: seq<uint32>, broken: bool, size: nat): Visit
    decreases |limits|
  {
    if limits == [] then Visit([], More(cursor))
    else match PageFor(children, cursor, limits[0], broken, size)
      case Failure(code) => Visit([], Refused(code))
      case Success(page) =>
        if page.complete then Visit(page.entries, Done)
        else
          var rest := Follow(children, page.nextCursor, limits[1..], broken, size);
          Visit(page.entries + rest.entries, rest.ending)
  }

  lemma {:induction false} SessionFollows(source: string, directory: string, cursor: string,
                                          limits: seq<uint32>, size: nat)
    requires DirectoryCheck(source, directory, size).None?
    ensures Session(source, directory, cursor, limits, size)
            == Follow(Children(source, directory), cursor, limits, source == "scale-failure", size)
    decreases |limits|
  {
    if limits != [] {
      var answer := ListOf(source, directory, cursor, limits[0], size);
      if answer.Success? && !answer.value.complete {
        SessionFollows(source, directory, answer.value.nextCursor, limits[1..], size);
      }
    }
  }

  lemma OnePageMore(children: seq<string>, start: nat, next: nat, end: nat, rest: Visit, broken: bool, size: nat)
    requires start < next <= |children| && (broken ==> next < 2 * PAGE_LIMIT)
    requires Covered(rest, children, next, end, broken, size)
    ensures Covered(Visit(Listing(children[start..next], size) + rest.entries, rest.ending),
                    children, start, end, broken, size)
  {
    assert children[start..next] + children[next..end] == children[start..end];
    ListingJoins(children[start..next], children[next..end], size);
  }

  lemma {:induction false} FollowCovers(children: seq<string>, cursor: string, start: nat, limits: seq<uint32>,
                                        broken: bool, size: nat) returns (end: nat)
    requires PointsAt(cursor, start) && start <= |children| <= MAX_INT64
    ensures Covered(Follow(children, cursor, limits, broken, size), children, start, end, broken, size)
    ensures Follow(children, cursor, limits, broken, size).ending.More? ==>
              start + |limits| <= end && (limits != [] ==> end < |children|)
    decreases |limits|
  {
    CursorPoints(cursor, start, |children|);
    if limits == [] || (broken && start >= PAGE_LIMIT) {
      end := start;
      assert children[start..end] == [];
    } else {
      var next := PageEnd(start, limits[0], |children|);
      if next == |children| {
        end := next;
      } else {
        end := FollowCovers(children, FormatInt(next), next, limits[1..], broken, size);
        var rest := Follow(children, FormatInt(next), limits[1..], broken, size);
        OnePageMore(children, start, next, end, rest, broken, size);
      }
    }
  }

  /** Pagination covers a directory.  Whatever limits the host picks, following the cursors from the
      empty one lists the children in order from the first, each once; when the listing says it is
      complete all of them were listed, and it is complete after at most one page per child. */
  lemma PaginationCovers(source: string, directory: string, limits: seq<uint32>, size: nat) returns (end: nat)
    requires DirectoryCheck(source, directory, size).None? && source != "scale-failure"
    ensures var children, visit := Children(source, directory), Session(source, directory, "", limits, size);
            && end <= |children| && visit.entries == Listing(children[..end], size)
            && (if visit.ending == Done then end == |children|
                else visit.ending.More? && PointsAt(visit.ending.cursor, end))
            && (limits != [] && |limits| >= |children| ==> visit.ending == Done)
  {
    var children := Children(source, directory);
    SessionFollows(source, directory, "", limits, size);
    end := FollowCovers(children, "", 0, limits, false, size);
    assert children[0..end] == children[..end];
  }

  /** So a host that keeps following cursors of the scale source gets book-0000000 to the last book,
      in order, and nothing else. */
  lemma WholeNamespaceIsListed(limits: seq<uint32>, size: nat)
    requires |limits| >= SCALE_ENTRIES
    ensures var visit := Session("scale", "root", "", limits, size);
            && visit.ending == Done && |visit.entries| == SCALE_ENTRIES
            && forall i | 0 <= i < SCALE_ENTRIES :: visit.entries[i] == Listed(BookId(i), size)
  {
    var end := PaginationCovers("scale", "root", limits, size);
    var visit := Session("scale", "root", "", limits, size);
    assert ScaleIds()[..SCALE_ENTRIES] == ScaleIds();
    forall i | 0 <= i < SCALE_ENTRIES
      ensures visit.entries[i] == Listed(BookId(i), size)
    {
      ListedBookAt(i, size);
    }
  }

  lemma ListedBookAt(i: nat, size: nat)
    requires i < SCALE_ENTRIES
    ensures Listing(ScaleIds(), size)[i] == Listed(BookId(i), size)
  {
    ListingAt(ScaleIds(), size, i);
  }

  /** The source with the injected failure never completes: a host that keeps going is refused
      after its first page or pages, holding a proper prefix of the namespace. */
  lemma BrokenSourceNeverCompletes(limits: seq<uint32>, size: nat) returns (end: nat)
    ensures var visit := Session("scale-failure", "root", "", limits, size);
            && end < SCALE_ENTRIES && visit.entries == Listing(ScaleIds()[..end], size)
            && visit.ending != Done
            && (visit.ending.Refused? ==> visit.ending.code == Unavailable && PAGE_LIMIT <= end)
            && (|limits| > 2 * PAGE_LIMIT ==> visit.ending.Refused?)
  {
    var ids := ScaleIds();
    SessionFollows("scale-failure", "root", "", limits, size);
    end := FollowCovers(ids, "", 0, limits, true, size);
    assert ids[0..end] == ids[..end];
  }

  /** Every page is within the contract's bound, and one that is not the last makes progress to a
      cursor that stands for a later position. */
  lemma PagesAdvance(source: string, directory: string, cursor: string, maxEntries: uint32, size: nat)
    requires ListOf(source, directory, cursor, maxEntries, size).Success?
    ensures var page, total := ListOf(source, directory, cursor, maxEntries, size).value, |Children(source, directory)|;
            && |page.entries| <= PAGE_LIMIT
            && (1 <= maxEntries as int <= PAGE_LIMIT ==> |page.entries| <= maxEntries as int)
            && CursorStart(cursor, total).Some?
            && if page.complete then page.nextCursor == ""
               else page.entries != []
                    && CursorStart(page.nextCursor, total) == Some(CursorStart(cursor, total).value + |page.entries|)
  {
    var total := |Children(source, directory)|;
    var end := PageEnd(CursorStart(cursor, total).value, maxEntries, total);
    CursorPoints(FormatInt(end), end, total);
  }

  /** How many entries a directory lists. */
  function Total(source: string, directory: string): nat {
    if source == "fixture" then (if directory == "root" then 2 else 0) else 2_000_000
  }

  /** Which directories can be listed: the root of each source, and the empty chapters of the fixture.
      A file is no directory, and anything else is absent. */
  lemma ListableDirectories(source: string, directory: string, cursor: string, maxEntries: uint32, size: nat)
    ensures var listable := (source in {"scale", "scale-failure"} && directory == "root")
                            || (source == "fixture" && directory in {"root", "chapters"});
            var isFile := source == "fixture"
                          && directory in {"book", "revision-conflict", "duplicate", "short", "blocking"};
            if listable then
              && DirectoryCheck(source, directory, size).None?
              && |Children(source, directory)| == Total(source, directory)
            else ListOf(source, directory, cursor, maxEntries, size)
                 == Failure(if isFile then InvalidArgument else NotFound)
  {
  }

  lemma ListOfListable(source: string, directory: string, cursor: string, maxEntries: uint32, size: nat)
    requires source in {"scale", "fixture"} && (directory == "root" || (source == "fixture" && directory == "chapters"))
    ensures ListOf(source, directory, cursor, maxEntries, size)
            == PageFor(Children(source, directory), cursor, maxEntries, false, size)
  {
  }

  /** A page of a listable directory starts where its cursor stands and holds as many entries as the
      limit, 512 without one or with a larger one, and the directory allow. */
  lemma PagesAreFull(source: string, directory: string, cursor: string, maxEntries: uint32, size: nat, start: nat)
    requires source in {"scale", "fixture"} && (directory == "root" || (source == "fixture" && directory == "chapters"))
    requires start <= |Children(source, directory)|
    requires if cursor == "" then start == 0 else ParseInt64(cursor) == Some(start)
    ensures ListOf(source, directory, cursor, maxEntries, size)
            == Success(FullPage(Children(source, directory), maxEntries, size, start))
  {
    ListOfListable(source, directory, cursor, maxEntries, size);
    PageFrom(Children(source, directory), cursor, maxEntries, size, start);
  }

  /** The page of children from start on with as many entries as limit and directory allow. */
  function FullPage(children: seq<string>, maxEntries: uint32, size: nat, start: nat): Page
    requires start <= |children|
  {
    var limit, left := if 1 <= maxEntries as int <= 512 then maxEntries as int else 512, |children| - start;
    var count := if limit < left then limit else left;
    Page(Listing(children[start..start + count], size),
         if count == left then "" else FormatInt(start + count), count == left)
  }

  lemma PageFrom(children: seq<string>, cursor: string, maxEntries: uint32, size: nat, start: nat)
    requires start <= |children|
    requires if cursor == "" then start == 0 else ParseInt64(cursor) == Some(start)
    ensures PageFor(children, cursor, maxEntries, false, size) == Success(FullPage(children, maxEntries, size, start))
  {
  }

  /** The failing source serves pages that start among its first 512 entries, full ones, and none after. */
  lemma InjectedFailure(cursor: string, maxEntries: uint32, size: nat, start: nat)
    requires start <= SCALE_ENTRIES && if cursor == "" then start == 0 else ParseInt64(cursor) == Some(start)
    ensures ListOf("scale-failure", "root", cursor, maxEntries, size)
            == if start >= 512 then Failure(Unavailable) else Success(FullPage(ScaleIds(), maxEntries, size, start))
  {
    BrokenList(cursor, maxEntries, size);
    PageFrom(ScaleIds(), cursor, maxEntries, size, start);
  }

  lemma BrokenList(cursor: string, maxEntries: uint32, size: nat)
    ensures ListOf("scale-failure", "root", cursor, maxEntries, size)
            == PageFor(ScaleIds(), cursor, maxEntries, true, size)
  {
  }

  /** A cursor that is no position of the directory is refused. */
  lemma ForeignCursorsAreRefused(source: string, directory: string, cursor: string, maxEntries: uint32, size: nat)
    requires source in {"scale", "fixture"} && (directory == "root" || (source == "fixture" && directory == "chapters"))
    requires cursor != ""
    requires forall start: nat :: start <= Total(source, directory) ==> ParseInt64(cursor) != Some(start)
    ensures ListOf(source, directory, cursor, maxEntries, size) == Failure(InvalidArgument)
  {
    ListableDirectories(source, directory, cursor, maxEntries, size);
    NoPosition(cursor, Total(source, directory));
  }

  lemma NoPosition(cursor: string, total: nat)
    requires cursor != "" && forall start: nat :: start <= total ==> ParseInt64(cursor) != Some(start)
    ensures CursorStart(cursor, total).None?
  {
  }

  // ---------- the size of a page ----------

  const PAGE_BYTES: nat := 1024 * 1024

  /** The bytes a protobuf varint takes. */
  function VarintLength(n: nat): (k: nat)
    ensures k > 0
  {
    if n < 128 then 1 else 1 + VarintLength(n / 128)
  }

  /** The bytes of a length-delimited field: tag, length, payload. */
  function FieldLength(payload: nat): nat { 1 + VarintLength(payload) + payload }

  /** The bytes of a string field, which is left out when it is empty; ids and names are ASCII. */
  function StringLength(s: string): nat { if s == "" then 0 else FieldLength(|s|) }

  function EntryLength(e: Entry): nat {
    StringLength(e.id) + StringLength(e.name) + StringLength(e.logicalPath) + 2
    + (if e.size == 0 then 0 else 1 + VarintLength(e.size)) + StringLength(e.revision)
  }

  /** The encoded entry data of a page. */
  function EntriesLength(entries: seq<Entry>): nat {
    if entries == [] then 0
    else EntriesLength(entries[..|entries| - 1]) + FieldLength(EntryLength(entries[|entries| - 1]))
  }

  function Power(base: nat, k: nat): nat { if k == 0 then 1 else base * Power(base, k - 1) }

  lemma {:induction false} VarintFits(n: nat, k: nat)
    requires k > 0 && n < Power(128, k)
    ensures VarintLength(n) <= k
  {
    if n >= 128 {
      VarintFits(n / 128, k - 1);
    }
  }

  lemma SizeFits(size: nat)
    requires size <= MAX_INT64
    ensures VarintLength(size) <= 9
  {
    assert Power(128, 3) == 0x20_0000;
    assert Power(128, 6) == 0x400_0000_0000;
    assert Power(128, 9) == 0x8000_0000_0000_0000;
    VarintFits(size, 9);
  }

  lemma {:induction false} PaddedFits(n: nat, width: nat)
    requires width > 0 && n < Power(10, width)
    ensures |Padded(n, width)| == width
  {
    if width > 1 {
      PaddedFits(n / 10, width - 1);
    } else {
      assert Power(10, 1) == 10;
    }
  }

  lemma ChildIdFits(source: string, directory: string, i: nat)
    requires i < |Children(source, directory)|
    ensures |Children(source, directory)[i]| <= 12
  {
    if IsScale(source) {
      assert Power(10, 3) == 1000;
      assert Power(10, 7) == 10_000_000;
      PaddedFits(i, 7);
    }
  }

  lemma EntryFits(id: string, size: nat)
    requires |id| <= 12 && size <= MAX_INT64
    ensures FieldLength(EntryLength(Listed(id, size))) <= 80
  {
    SizeFits(size);
  }

  lemma {:induction false} ListingFits(ids: seq<string>, size: nat)
    requires size <= MAX_INT64 && forall i | 0 <= i < |ids| :: |ids[i]| <= 12
    ensures EntriesLength(Listing(ids, size)) <= 80 * |ids|
  {
    if ids != [] {
      var front, last := ids[..|ids| - 1], ids[|ids| - 1];
      ListingFits(front, size);
      EntryFits(last, size);
      EntriesSnoc(Listing(front, size), Listed(last, size));
    }
  }

  lemma EntriesSnoc(entries: seq<Entry>, e: Entry)
    ensures EntriesLength(entries + [e]) == EntriesLength(entries) + FieldLength(EntryLength(e))
  {
    assert (entries + [e])[..|entries|] == entries;
  }

  /** The entries of every page, as protobuf encodes them, stay within the contract's mebibyte. */
  lemma PagesFit(source: string, directory: string, cursor: string, maxEntries: uint32, size: nat)
    requires ListOf(source, directory, cursor, maxEntries, size).Success? && size <= MAX_INT64
    ensures EntriesLength(ListOf(source, directory, cursor, maxEntries, size).value.entries) <= PAGE_BYTES
  {
    var children := Children(source, directory);
    var start := CursorStart(cursor, |children|).value;
    var end := PageEnd(start, maxEntries, |children|);
    forall i | start <= i < end
      ensures |children[i]| <= 12
    {
      ChildIdFits(source, directory, i);
    }
    ListingFits(children[start..end], size);
  }

  // ---------- listed entries stat back ----------

  /** Every child of a listed directory stats back, under its own revision, to the entry listed. */
  lemma ListedStatsBack(source: string, directory: string, i: nat, size: nat)
    requires DirectoryCheck(source, directory, size).None? && i < |Children(source, directory)|
    ensures var child := Children(source, directory)[i];
            StatOf(source, child, Listed(child, size).revision, size) == Success(Listed(child, size))
  {
    if IsScale(source) {
      ScaleBook(source, i, size);
    }
  }

  /** The ids only a host that knows them asks for: nothing lists them. */
  predicate IsHidden(source: string, id: string) {
    source == "fixture" && id in {"revision-conflict", "duplicate", "short", "blocking"}
  }

  /** Conversely, Stat finds nothing but the root of a source, what that root lists and the hidden
      ids, each under the one revision, and answers with the entry of that id. */
  lemma StatFindsExactly(source: string, id: string, revision: string, size: nat)
    ensures StatOf(source, id, revision, size).Success?
            <==> && (IsScale(source) || source == "fixture") && revision == "v1"
                 && (id == "root" || id in Children(source, "root") || IsHidden(source, id))
    ensures StatOf(source, id, revision, size).Success? ==>
              var entry := StatOf(source, id, revision, size).value;
              entry.id == id && entry.revision == revision && (id != "root" ==> entry == Listed(id, size))
    ensures StatOf(source, id, revision, size).Failure? ==>
              var code := StatOf(source, id, revision, size).error;
              && (code == FailedPrecondition <==> revision != "" && StatOf(source, id, "v1", size).Success?)
              && (code == NotFound <==> revision != "" && StatOf(source, id, "v1", size).Failure?)
              && (code == InvalidArgument <==> revision == "")
  {
    if IsScale(source) {
      CanonicalIds(source, id, size);
      ListedBooks(id);
    }
  }

  lemma ListedBooks(id: string)
    ensures id in ScaleIds() <==> exists n: nat :: n < SCALE_ENTRIES && id == BookId(n)
  {
    if n: nat :| n < SCALE_ENTRIES && id == BookId(n) {
      assert ScaleIds()[n] == id;
    }
  }

  /** No child is listed under two positions. */
  lemma ChildrenDiffer(source: string, directory: string, i: nat, j: nat)
    requires i < j < |Children(source, directory)|
    ensures Children(source, directory)[i] != Children(source, directory)[j]
  {
    if IsScale(source) && BookId(i) == BookId(j) {
      BookIdsDiffer(i, j);
    }
  }

  // ---------- what a read delivers ----------

  function Concat(chunks: seq<Chunk>): seq<byte> {
    if chunks == [] then [] else chunks[0].data + Concat(chunks[1..])
  }

  /** Each chunk starts where the one before it ended, and holds no more than the contract allows. */
  predicate Consecutive(chunks: seq<Chunk>, offset: nat) {
    chunks != [] ==>
      && chunks[0].offset as int == offset && |chunks[0].data| <= CHUNK_SIZE
      && Consecutive(chunks[1..], offset + |chunks[0].data|)
  }

  /** The last chunk sets eof, and no other does. */
  predicate EndsOnce(chunks: seq<Chunk>) {
    chunks != [] && (chunks[0].eof <==> |chunks| == 1) && (|chunks| > 1 ==> EndsOnce(chunks[1..]))
  }

  /** What a successful read of the range [from, end) owes its caller. */
  predicate Delivers(chunks: seq<Chunk>, book: seq<byte>, from: nat, end: nat)
    requires from <= end <= |book|
  {
    && Consecutive(chunks, from) && EndsOnce(chunks) && Concat(chunks) == book[from..end]
  }

  /** The first chunk in front of chunks that deliver the rest. */
  lemma OneChunkMore(first: Chunk, rest: seq<Chunk>, book: seq<byte>, from: nat, next: nat, end: nat)
    requires from < next < end <= |book| && next - from <= CHUNK_SIZE
    requires first.offset as int == from && first.data == book[from..next] && !first.eof
    requires Consecutive(rest, next) && EndsOnce(rest) && Concat(rest) == book[next..end]
    ensures Consecutive([first] + rest, from) && EndsOnce([first] + rest)
    ensures Concat([first] + rest) == book[from..end]
  {
    var chunks := [first] + rest;
    assert chunks[0] == first && chunks[1..] == rest;
    assert book[from..end] == book[from..next] + book[next..end];
  }

  lemma LastChunk(last: Chunk, book: seq<byte>, from: nat, end: nat)
    requires from < end <= |book| && end - from <= CHUNK_SIZE
    requires last.offset as int == from && last.data == book[from..end] && last.eof
    ensures Consecutive([last], from) && EndsOnce([last]) && Concat([last]) == book[from..end]
  {
    var chunks := [last];
    assert chunks[0] == last && chunks[1..] == [];
    assert Concat(chunks) == last.data + Concat(chunks[1..]);
  }

  lemma FirstOfMany(book: seq<byte>, from: nat, end: nat)
    requires from + CHUNK_SIZE < end <= |book| && |book| <= MAX_INT64
    ensures var next := from + CHUNK_SIZE;
            Chunks(book, from, end) == [Chunk(from as int64, book[from..next], false)] + Chunks(book, next, end)
  {
    var next := from + CHUNK_SIZE;
    var all, rest := Chunks(book, from, end), Chunks(book, next, end);
    assert |all| == 1 + |rest|;
    assert forall k | 0 <= k < |rest| :: all[k + 1] == rest[k];
  }

  lemma {:induction false} ChunksDeliver(book: seq<byte>, from: nat, end: nat)
    requires from < end <= |book| && |book| <= MAX_INT64
    ensures Consecutive(Chunks(book, from, end), from) && EndsOnce(Chunks(book, from, end))
    ensures Concat(Chunks(book, from, end)) == book[from..end]
    decreases end - from
  {
    if end - from <= CHUNK_SIZE {
      var last := Chunk(from as int64, book[from..end], true);
      LastChunk(last, book, from, end);
      assert Chunks(book, from, end) == [last];
    } else {
      var next := from + CHUNK_SIZE;
      FirstOfMany(book, from, end);
      ChunksDeliver(book, next, end);
      OneChunkMore(Chunk(from as int64, book[from..next], false), Chunks(book, next, end), book, from, next, end);
    }
  }

  lemma NothingToDeliver(book: seq<byte>, chunk: Chunk, from: nat)
    requires from <= |book| && chunk.offset as int == from && chunk.data == [] && chunk.eof
    ensures Delivers([chunk], book, from, from)
  {
    var chunks := [chunk];
    assert chunks[1..] == [];
    assert Concat(chunks) == chunk.data + Concat(chunks[1..]);
  }

  /** The ranges a read accepts, in plain numbers: inside the book and at most 8 MiB long. */
  lemma AcceptedRanges(book: seq<byte>, offset: int64, length: int64)
    ensures RangeAccepted(book, offset, length)
            <==> 0 <= offset as int && 0 <= length as int <= 8388608 && offset as int + length as int <= |book|
  {
  }

  lemma OrdinaryScript(book: seq<byte>, id: string, offset: int64, length: int64)
    requires |book| <= MAX_INT64 && RangeAccepted(book, offset, length)
    requires id !in {"revision-conflict", "blocking", "short", "duplicate"}
    ensures var from, count, script := offset as int, length as int, ScriptOf(book, id, offset, length);
            && script.end == Success(()) && Delivers(script.chunks, book, from, from + count)
            && |script.chunks| == if count == 0 then 1 else (count + 131072 - 1) / 131072
  {
    var from, count := offset as int, length as int;
    if count == 0 {
      NothingToDeliver(book, Chunk(offset, [], true), from);
    } else {
      ChunksDeliver(book, from, from + count);
    }
  }

  lemma OrdinaryIsFile(source: string, id: string, revision: string, size: nat)
    requires StatOf(source, id, revision, size).Success?
    ensures StatOf(source, id, revision, size).value.kind == File <==> id !in {"root", "chapters"}
  {
  }

  /** A read of an ordinary file delivers its range, whole and in as few chunks as allowed, if the
      range lies inside the book and is at most 8 MiB long; any other range is refused with nothing
      sent. */
  lemma OrdinaryReadDelivers(book: seq<byte>, r: ReadRequest)
    requires |book| <= MAX_INT64 && StatOf(r.source, r.id, r.revision, |book|).Success?
    requires r.id !in {"root", "chapters", "revision-conflict", "blocking", "short", "duplicate"}
    ensures var from, count, script := r.offset as int, r.length as int, ReadOf(book, r);
            if 0 <= from && 0 <= count <= 8388608 && from + count <= |book| then
              && script.end == Success(()) && Delivers(script.chunks, book, from, from + count)
              && |script.chunks| == if count == 0 then 1 else (count + 131072 - 1) / 131072
            else script == Script([], Failure(InvalidArgument))
  {
    AcceptedRanges(book, r.offset, r.length);
    OrdinaryIsFile(r.source, r.id, r.revision, |book|);
    ReadOfFile(book, r);
    if RangeAccepted(book, r.offset, r.length) {
      OrdinaryScript(book, r.id, r.offset, r.length);
    }
  }

  /** What reads of the four hidden files send, and how they end: an entry that changed before the
      read and one that blocks until its caller gives up end with those errors, the latter after one
      byte; the faulty ids send a first chunk that is cut short, or the same one twice. */
  predicate HiddenRead(script: Script, book: seq<byte>, id: string, offset: int64, count: nat)
    requires 0 <= offset as int <= offset as int + count <= |book|
  {
    var from := offset as int;
    var next := if count > 131072 then from + 131072 else from + count;
    if id == "revision-conflict" then script == Script([], Failure(FailedPrecondition))
    else if id == "blocking" then
      script == Script(if count == 0 then [] else [Chunk(offset, [book[from]], false)], Failure(Cancelled))
    else if count == 0 then script == Script([Chunk(offset, [], true)], Success(()))
    else if id == "short" then script == Script([Chunk(offset, book[from..next - 1], true)], Success(()))
    else
      var first := Chunk(offset, book[from..next], next == from + count);
      script == Script([first, first], Success(()))
  }

  lemma HiddenScript(book: seq<byte>, id: string, offset: int64, length: int64)
    requires |book| <= MAX_INT64 && RangeAccepted(book, offset, length)
    requires id in {"revision-conflict", "blocking", "short", "duplicate"}
    ensures HiddenRead(ScriptOf(book, id, offset, length), book, id, offset, length as int)
  {
    var from, count := offset as int, length as int;
    if count > 0 {
      NextChunk(book, from, from + count, 0, from);
      var next := if count > 131072 then from + 131072 else from + count;
      assert book[from..next][..next - from - 1] == book[from..next - 1];
      assert book[from..from + 1] == [book[from]];
    }
  }

  /** The other reads: a directory has no ranges, whatever they are, and the hidden files have the same
      ranges as ordinary ones. */
  lemma OtherReads(book: seq<byte>, r: ReadRequest)
    requires |book| <= MAX_INT64 && StatOf(r.source, r.id, r.revision, |book|).Success?
    requires r.id in {"root", "chapters", "revision-conflict", "blocking", "short", "duplicate"}
    ensures var from, count := r.offset as int, r.length as int;
            if r.id !in {"root", "chapters"} && 0 <= from && 0 <= count <= 8388608 && from + count <= |book| then
              HiddenRead(ReadOf(book, r), book, r.id, r.offset, count)
            else ReadOf(book, r) == Script([], Failure(InvalidArgument))
  {
    AcceptedRanges(book, r.offset, r.length);
    OrdinaryIsFile(r.source, r.id, r.revision, |book|);
    ReadOfFile(book, r);
    if RangeAccepted(book, r.offset, r.length) && r.id !in {"root", "chapters"} {
      HiddenScript(book, r.id, r.offset, r.length);
    }
  }

  /** The bytes a caller holds after reading [offset, next), None when the read fails. */
  function Turn(book: seq<byte>, source: string, id: string, offset: nat, next: nat): Option<seq<byte>>
    requires offset <= next <= |book| <= MAX_INT64
  {
    var script := ReadOf(book, ReadRequest(source, id, "v1", offset as int64, (next - offset) as int64));
    if script.end.Success? then Some(Concat(script.chunks)) else None
  }

  /** The same after reading one range after another from offset on. */
  function ReadInTurn(book: seq<byte>, source: string, id: string, offset: nat, lengths: seq<nat>)
    : Option<seq<byte>>
    requires offset + Sum(lengths) <= |book| <= MAX_INT64
    decreases |lengths|
  {
    if lengths == [] then Some([])
    else
      var first := Turn(book, source, id, offset, offset + lengths[0]);
      var rest := ReadInTurn(book, source, id, offset + lengths[0], lengths[1..]);
      if first.Some? && rest.Some? then Some(first.value + rest.value) else None
  }

  function Sum(lengths: seq<nat>): nat { if lengths == [] then 0 else lengths[0] + Sum(lengths[1..]) }

  /** A file whose reads are served as they should be. */
  predicate IsOrdinary(source: string, id: string, size: nat) {
    && StatOf(source, id, "v1", size).Success?
    && id !in {"root", "chapters", "revision-conflict", "blocking", "short", "duplicate"}
  }

  /** Reading an ordinary file in turns of at most 8 MiB gives all of it, to the last byte. */
  lemma {:induction false} TurnsDeliver(book: seq<byte>, source: string, id: string, offset: nat, lengths: seq<nat>)
    requires |book| <= MAX_INT64 && IsOrdinary(source, id, |book|)
    requires offset + Sum(lengths) == |book| && forall i | 0 <= i < |lengths| :: lengths[i] <= 8388608
    ensures ReadInTurn(book, source, id, offset, lengths) == Some(book[offset..])
    decreases |lengths|
  {
    if lengths == [] {
      assert book[offset..] == [];
    } else {
      var next := offset + lengths[0];
      TurnsDeliver(book, source, id, next, lengths[1..]);
      FirstTurn(book, source, id, offset, lengths, book[next..]);
      SlicesJoin(book, offset, next);
    }
  }

  lemma FirstTurn(book: seq<byte>, source: string, id: string, offset: nat, lengths: seq<nat>, rest: seq<byte>)
    requires lengths != [] && offset + Sum(lengths) <= |book| <= MAX_INT64
    requires IsOrdinary(source, id, |book|) && lengths[0] <= 8388608
    requires ReadInTurn(book, source, id, offset + lengths[0], lengths[1..]) == Some(rest)
    ensures ReadInTurn(book, source, id, offset, lengths) == Some(book[offset..offset + lengths[0]] + rest)
  {
    OneTurn(book, source, id, offset, offset + lengths[0]);
  }

  lemma SlicesJoin(book: seq<byte>, from: nat, next: nat)
    requires from <= next <= |book|
    ensures book[from..next] + book[next..] == book[from..]
  {
  }

  lemma OneTurn(book: seq<byte>, source: string, id: string, offset: nat, next: nat)
    requires offset <= next <= |book| <= MAX_INT64 && next - offset <= 8388608
    requires IsOrdinary(source, id, |book|)
    ensures Turn(book, source, id, offset, next) == Some(book[offset..next])
  {
    OrdinaryReadDelivers(book, ReadRequest(source, id, "v1", offset as int64, (next - offset) as int64));
  }

  lemma RepeatedChunk(chunk: Chunk, offset: nat)
    requires chunk.data != []
    ensures !Consecutive([chunk, chunk], offset)
  {
    var twice := [chunk, chunk];
    if chunk.offset as int == offset {
      assert !Consecutive(twice[1..], offset + |chunk.data|);
    }
  }

  lemma FaultyDelivery(book: seq<byte>, id: string, offset: int64, count: nat, script: Script)
    requires 0 <= offset as int <= offset as int + count <= |book| && id in {"short", "duplicate"}
    requires HiddenRead(script, book, id, offset, count)
    ensures Delivers(script.chunks, book, offset as int, offset as int + count) <==> count == 0
  {
    if count == 0 {
      NothingToDeliver(book, Chunk(offset, [], true), offset as int);
    } else if id == "short" {
      ConcatOne(script.chunks[0]);
    } else {
      RepeatedChunk(script.chunks[0], offset as int);
    }
  }

  /** Of the reads that end with success, exactly those of the two faulty ids that ask for any
      bytes break the contract: one repeats its first chunk, the other cuts it short. */
  lemma SuccessfulReadDeliversUnlessFaulty(book: seq<byte>, r: ReadRequest)
    requires |book| <= MAX_INT64 && ReadOf(book, r).end.Success?
    ensures 0 <= r.offset as int <= r.offset as int + r.length as int <= |book|
    ensures Delivers(ReadOf(book, r).chunks, book, r.offset as int, r.offset as int + r.length as int)
            <==> !(r.id in {"short", "duplicate"} && r.length > 0)
  {
    if r.id in {"root", "chapters", "revision-conflict", "blocking", "short", "duplicate"} {
      OtherReads(book, r);
      FaultyDelivery(book, r.id, r.offset, r.length as int, ReadOf(book, r));
    } else {
      OrdinaryReadDelivers(book, r);
    }
  }

  lemma ConcatOne(chunk: Chunk)
    ensures Concat([chunk]) == chunk.data
  {
    assert Concat([chunk]) == chunk.data + Concat([]);
  }
}

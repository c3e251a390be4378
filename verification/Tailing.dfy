/**
 The tailing protocol: a writer that appends to the log, a host that stores the marker of each
 successful poll and sends it back, and the stateless plugin between them.
 */
module Tailing {
  import opened Bytes
  import opened ChangeLog
  import opened Decimal
  import opened Lists
  import opened ScanSource
  import opened Wrappers

  // ---------- one poll ----------

  /** Where a poll starts reading: at its marker, at 0 after a truncation, or at the end of the
      log when it resynchronises. */
  function StartedAt(marker: string, stat: Disk, peek: Disk, log: seq<byte>): nat {
    match PlanOf(marker, stat, peek)
    case Success(From(o)) => o
    case Success(FromNow) => CompleteEnd(log)
    case _ => 0
  }

  /** Every marker a poll returns, whatever it found on disk, is a non-empty decimal that parses back
      to the offset printed. */
  lemma MarkerIsCanonical(marker: string, stat: Disk, peek: Disk, read: Disk) returns (n: nat)
    requires Poll(marker, stat, peek, read).Success?
    requires read.Present? ==> |read.content| <= MAX_INT64
    ensures Poll(marker, stat, peek, read).value.nextMarker == FormatInt(n)
    ensures FormatInt(n) != "" && ParseInt64(FormatInt(n)) == Some(n)
  {
    n := PrintedOffset(marker, stat, peek, read);
    PrintedParsesBack(n, 1);
  }

  lemma PrintedOffset(marker: string, stat: Disk, peek: Disk, read: Disk) returns (n: nat)
    requires Poll(marker, stat, peek, read).Success?
    requires read.Present? ==> |read.content| <= MAX_INT64
    ensures n <= MAX_INT64 && Poll(marker, stat, peek, read).value.nextMarker == FormatInt(n)
  {
    match PlanOf(marker, stat, peek).value
    case AwaitFirstWrite => n := 0;
    case FromNow => n := CompleteEnd(read.content);
    case From(o) =>
      n := EndFrom(read.content, o);
      PlanIsInt64(marker, stat, peek, o);
      EndFromBound(read.content, o);
  }

  lemma PlanIsInt64(marker: string, stat: Disk, peek: Disk, o: nat)
    requires PlanOf(marker, stat, peek) == Success(From(o))
    ensures o <= MAX_INT64
  {
  }

  lemma EndFromBound(c: seq<byte>, o: nat)
    ensures EndFrom(c, o) <= if o <= |c| then |c| else o
  {
  }

  /** No marker, or one this plugin cannot have written, moves the source to the end of the log
      silently, however the log grows while the poll runs. */
  lemma ForeignMarkerResyncs(marker: string, stat: Disk, peek: Disk, read: Disk)
    requires marker == "" || ParseInt64(marker).None? || ParseInt64(marker).value < 0
    requires stat.Present? && read.Present? && read.fault.None?
    ensures Poll(marker, stat, peek, read) == Success(Response(FormatInt(CompleteEnd(read.content)), []))
  {
  }

  lemma ReportFrom(c: seq<byte>, from: nat)
    requires Boundary(c, from)
    ensures from <= CompleteEnd(c) && EndFrom(c, from) == CompleteEnd(c)
    ensures Changes(Rest(c, from)) == Changes(c[from..CompleteEnd(c)])
  {
    CompleteEndFrom(c, from);
    FragmentIsSilent(c[from..]);
    assert c[from..][..CompleteEnd(c) - from] == c[from..CompleteEnd(c)];
  }

  /** The answer of a poll that covers the lines from a boundary to the last complete one. */
  predicate Covers(r: Result<Response, PollError>, c: seq<byte>, from: nat) {
    && from <= CompleteEnd(c) && Boundary(c, from)
    && r == Success(Response(FormatInt(CompleteEnd(c)), Changes(c[from..CompleteEnd(c)])))
  }

  lemma ReportCovers(read: Disk, from: nat)
    requires read.Present? && Boundary(read.content, from) && Report(read, from).Success?
    ensures Covers(Report(read, from), read.content, from)
  {
    ReportFrom(read.content, from);
  }

  lemma ResyncCovers(read: Disk)
    requires Resync(read).Success?
    ensures Covers(Resync(read), read.content, CompleteEnd(read.content))
  {
    NoChangesAt(read.content, CompleteEnd(read.content));
  }

  /** Never a fragment.  Whatever is on disk and whatever the marker, as long as the log is only
      appended to while the poll runs: the poll reports exactly the complete lines from a line
      boundary to the end of the last one, and its marker is that end. */
  lemma NeverAFragment(marker: string, stat: Disk, peek: Disk, read: Disk)
    requires Poll(marker, stat, peek, read).Success? && stat.Present?
    requires peek.Present? && read.Present? ==> peek.content <= read.content
    ensures read.Present?
    ensures Covers(Poll(marker, stat, peek, read), read.content, StartedAt(marker, stat, peek, read.content))
    ensures match StoredOffset(marker)
            case None => StartedAt(marker, stat, peek, read.content) == CompleteEnd(read.content)
            case Some(o) => StartedAt(marker, stat, peek, read.content) in {0, o}
  {
    match PlanOf(marker, stat, peek).value
    case FromNow => ResyncCovers(read);
    case From(o) =>
      assert Report(read, o).Success? && read.Present?;
      PlanStartsAtBoundary(marker, stat, peek, read.content, o);
      ReportCovers(read, o);
  }

  lemma PlanStartsAtBoundary(marker: string, stat: Disk, peek: Disk, log: seq<byte>, o: nat)
    requires PlanOf(marker, stat, peek) == Success(From(o))
    requires peek.Present? ==> peek.content <= log
    ensures Boundary(log, o)
  {
  }

  lemma ChangesFromStart(c: seq<byte>, from: nat)
    requires Boundary(c, from) && from <= CompleteEnd(c)
    ensures Changes(c) == Changes(c[..from]) + Changes(c[from..CompleteEnd(c)])
    ensures from == 0 ==> Changes(c[..from]) == []
  {
    var e := CompleteEnd(c);
    FragmentIsSilent(c);
    ChangesJoin(c, 0, from, e);
    assert c[0..e] == c[..e] && c[0..from] == c[..from];
  }

  /** So every reported change is the text of a whole line of the log as read. */
  lemma EveryChangeIsAWholeLine(marker: string, stat: Disk, peek: Disk, read: Disk, change: Change)
    returns (k: nat)
    requires Poll(marker, stat, peek, read).Success? && stat.Present?
    requires peek.Present? && read.Present? ==> peek.content <= read.content
    requires change in Poll(marker, stat, peek, read).value.changes
    ensures read.Present? && k < |Lines(read.content)| && Reports(Lines(read.content)[k], change)
    ensures forall i | 0 <= i < |change.path| :: change.path[i] != NEWLINE
  {
    NeverAFragment(marker, stat, peek, read);
    ChangesFromStart(read.content, StartedAt(marker, stat, peek, read.content));
    k := ChangeComesFromLine(read.content, change);
  }

  lemma NoChangesAt(c: seq<byte>, n: nat)
    requires n <= |c|
    ensures Changes(c[n..n]) == []
  {
    assert c[n..n] == [];
  }

  /** A poll that finds the same log at every system call. */
  function StablePoll(marker: string, log: seq<byte>): Result<Response, PollError> {
    Poll(marker, Present(log, None), Present(log, None), Present(log, None))
  }

  function StableStart(marker: string, log: seq<byte>): nat {
    StartedAt(marker, Present(log, None), Present(log, None), log)
  }

  lemma StablePollReports(marker: string, log: seq<byte>)
    ensures Covers(StablePoll(marker, log), log, StableStart(marker, log))
  {
    NeverAFragment(marker, Present(log, None), Present(log, None), Present(log, None));
  }

  /** Where such a poll starts. */
  lemma StableStartAt(marker: string, o: nat, log: seq<byte>)
    requires StoredOffset(marker) == Some(o)
    ensures StableStart(marker, log) == if o <= |log| && Boundary(log, o) then o else 0
  {
  }

  /** A poll of a log that stays as it is, with no marker or a foreign one, answers with its end. */
  lemma ForeignMarkerAnswers(marker: string, log: seq<byte>)
    requires marker == "" || ParseInt64(marker).None? || ParseInt64(marker).value < 0
    ensures StablePoll(marker, log) == Success(Response(FormatInt(CompleteEnd(log)), []))
  {
    ForeignMarkerResyncs(marker, Present(log, None), Present(log, None), Present(log, None));
  }

  /** With an offset that is a line boundary of the log it also reports the changes from there on. */
  lemma OffsetResumes(marker: string, o: nat, log: seq<byte>)
    requires ParseInt64(marker) == Some(o) && o <= |log| && (o == 0 || log[o - 1] == NEWLINE)
    ensures StablePoll(marker, log) == Success(Response(FormatInt(CompleteEnd(log)), Changes(log[o..])))
  {
    StableStartAt(marker, o, log);
    StablePollReports(marker, log);
    CoversToEnd(StablePoll(marker, log), log, o);
  }

  /** With any other offset it reports the whole log. */
  lemma OffsetRestarts(marker: string, o: nat, log: seq<byte>)
    requires ParseInt64(marker) == Some(o) && (o > |log| || (o > 0 && log[o - 1] != NEWLINE))
    ensures StablePoll(marker, log) == Success(Response(FormatInt(CompleteEnd(log)), Changes(log)))
  {
    StableStartAt(marker, o, log);
    StablePollReports(marker, log);
    CoversToEnd(StablePoll(marker, log), log, 0);
  }

  lemma CoversToEnd(r: Result<Response, PollError>, log: seq<byte>, from: nat)
    requires Covers(r, log, from)
    ensures r.Success? && from <= |log| && r.value.nextMarker == FormatInt(CompleteEnd(log))
    ensures r.value.changes == Changes(log[from..])
    ensures from == 0 ==> r.value.changes == Changes(log)
  {
    ReportFrom(log, from);
    if from == 0 {
      assert log[from..] == log;
    }
  }

  /** How far system calls find the log readable. */
  predicate ReadableTo(d: Disk, n: nat) {
    d.Present? && n <= |d.content| && (d.fault.Some? ==> n <= d.fault.value)
  }

  /** When a poll fails: the log is missing although an earlier poll found it, or refused, or the byte
      before the marker or the log itself cannot be read. */
  lemma PollFailsExactly(marker: string, stat: Disk, peek: Disk, read: Disk)
    ensures stat == Missing ==>
              Poll(marker, stat, peek, read)
              == if marker in {"", "0"} then Success(Response("0", [])) else Failure(NotFound)
    ensures stat == Denied ==> Poll(marker, stat, peek, read) == Failure(StatFailed)
    ensures stat.Present? ==>
              (Poll(marker, stat, peek, read).Failure? <==>
                 || !read.Present? || read.fault.Some?
                 || exists o: nat :: 0 < o <= |stat.content| && ParseInt64(marker) == Some(o) && !ReadableTo(peek, o))
  {
    if o: nat :| ParseInt64(marker) == Some(o) {
      assert StoredOffset(marker) == Some(o);
    } else if ParseInt64(marker).Some? {
      assert ParseInt64(marker).value < 0;
    }
  }

  // ---------- runs ----------

  /** What a system call of a poll meets: no file, a refusal, or the log as it then is. */
  datatype Access = Gone | Refused | Opened(fault: Option<nat>)

  function See(a: Access, log: seq<byte>): Disk {
    match a
    case Gone => Missing
    case Refused => Denied
    case Opened(fault) => Present(log, fault)
  }

  /** What the host does with a successful poll: it queues the scans and stores the new marker, or it
      discards the marker after queueing some of the scans (all of them when only the save failed). */
  datatype Host = Stored | Discarded(queued: seq<bool>)

  function Queued(changes: seq<Change>, queued: seq<bool>): seq<Change> {
    if changes == [] || queued == [] then []
    else (if queued[0] then [changes[0]] else []) + Queued(changes[1..], queued[1..])
  }

  /** The writer appends, or the host polls; the writer may also append while a poll is between
      its system calls. */
  datatype Event =
    | Append(data: seq<byte>)
    | PollNow(stat: Access, grown: seq<byte>, peek: Access, grownMore: seq<byte>, read: Access, host: Host)

  const CLEAN_POLL := PollNow(Opened(None), [], Opened(None), [], Opened(None), Stored)

  /** The log, the host's marker, every change delivered by polls whose marker was stored, the offset
      at which the first of those polls started, and what the other polls delivered besides. */
  datatype World = World(log: seq<byte>, marker: string, delivered: seq<Change>, start: Option<nat>,
                         extra: seq<Change>)

  /** The host keeps its marker when a poll fails, and stores or discards the new one when it succeeds. */
  function AfterPoll(w: World, log: seq<byte>, stat: Disk, peek: Disk, read: Disk, host: Host): World {
    match Poll(w.marker, stat, peek, read)
    case Failure(_) => w.(log := log)
    case Success(response) =>
      match host
      case Discarded(queued) => w.(log := log, extra := w.extra + Queued(response.changes, queued))
      case Stored =>
        World(log, response.nextMarker, w.delivered + response.changes,
              if w.start.Some? then w.start else Some(StartedAt(w.marker, stat, peek, log)), w.extra)
  }

  function Step(w: World, e: Event): World {
    match e
    case Append(data) => w.(log := w.log + data)
    case PollNow(stat, grown, peek, grownMore, read, host) =>
      var log1 := w.log + grown;
      var log2 := log1 + grownMore;
      AfterPoll(w, log2, See(stat, w.log), See(peek, log1), See(read, log2), host)
  }

  function Run(w: World, events: seq<Event>): World
    decreases |events|
  {
    if events == [] then w else Run(Step(w, events[0]), events[1..])
  }

  function Fresh(log: seq<byte>, marker: string): World { World(log, marker, [], None, []) }

  /** The changes between s and m were delivered, each once and in order, and m is the marker. */
  predicate DeliveredUpTo(w: World, s: nat, m: nat) {
    && w.marker == FormatInt(m)
    && s <= m && Boundary(w.log, s) && Boundary(w.log, m)
    && w.delivered == Changes(w.log[s..m])
  }

  /** Whatever came through a poll whose marker was discarded is a line of the log. */
  ghost predicate ExtraFromLog(w: World) { forall c | c in w.extra :: c in Changes(w.log) }

  ghost predicate Sound(w: World, marker: string) {
    ExtraFromLog(w) &&
    match w.start
    case None => w.delivered == [] && w.marker == marker
    case Some(s) => exists m: nat :: DeliveredUpTo(w, s, m)
  }

  lemma GrowthKeeps(w: World, log: seq<byte>, s: nat, m: nat)
    requires w.log <= log && DeliveredUpTo(w, s, m)
    ensures DeliveredUpTo(w.(log := log), s, m)
  {
    assert log[s..m] == w.log[s..m];
  }

  /** The marker denotes offset m and is one this plugin prints for it. */
  predicate Denotes(marker: string, m: nat) {
    StoredOffset(marker) == Some(m) && marker != "" && (marker == "0" ==> m == 0)
  }

  lemma PrintedDenotes(m: nat)
    requires m <= MAX_INT64
    ensures Denotes(FormatInt(m), m)
  {
    PrintedParsesBack(m, 1);
    assert Value("0") == 0;
  }

  /** A stored marker is where a poll of the grown log starts. */
  lemma StartsAtMarker(log: seq<byte>, marker: string, m: nat, stat: Disk, peek: Disk)
    requires Boundary(log, m) && Denotes(marker, m)
    requires stat.Present? ==> stat.content == log
    requires peek.Present? ==> log <= peek.content
    requires PlanOf(marker, stat, peek).Success?
    ensures PlanOf(marker, stat, peek) == Success(if stat.Missing? then AwaitFirstWrite else From(m))
    ensures stat.Missing? ==> m == 0
  {
    if peek.Present? && m > 0 {
      assert peek.content[m - 1] == log[m - 1];
    }
  }

  lemma ChangesGrow(log: seq<byte>, all: seq<byte>)
    requires log <= all
    ensures Changes(log) <= Changes(all)
  {
    FragmentIsSilent(log);
    FragmentIsSilent(all);
    ReportGrows(log, all, 0);
    assert log[0..CompleteEnd(log)] == log[..CompleteEnd(log)] && all[0..CompleteEnd(all)] == all[..CompleteEnd(all)];
  }

  lemma {:induction false} QueuedAreChanges(changes: seq<Change>, queued: seq<bool>)
    ensures forall c | c in Queued(changes, queued) :: c in changes
  {
    if changes != [] && queued != [] {
      QueuedAreChanges(changes[1..], queued[1..]);
    }
  }

  lemma ExtraStays(w: World, log: seq<byte>)
    requires ExtraFromLog(w) && w.log <= log
    ensures ExtraFromLog(w.(log := log))
  {
    ChangesGrow(w.log, log);
  }

  /** A poll that covers the log from the marker on leaves no gap and repeats nothing. */
  lemma PollContinues(w: World, s: nat, m: nat, log: seq<byte>, r: Response)
    requires DeliveredUpTo(w, s, m) && w.log <= log && Covers(Success(r), log, m)
    ensures DeliveredUpTo(World(log, r.nextMarker, w.delivered + r.changes, w.start, w.extra), s, CompleteEnd(log))
  {
    GrowthKeeps(w, log, s, m);
    ChangesJoin(log, s, m, CompleteEnd(log));
  }

  lemma FirstPollSound(w: World, log: seq<byte>, s: Disk, p: Disk, r: Disk)
    requires w.start.None? && w.delivered == [] && Poll(w.marker, s, p, r).Success?
    requires p.Present? && r.Present? ==> p.content <= r.content
    requires r.Present? ==> r.content == log
    ensures var after := AfterPoll(w, log, s, p, r, Stored);
            after.start.Some? && exists m: nat :: DeliveredUpTo(after, after.start.value, m)
  {
    var after := AfterPoll(w, log, s, p, r, Stored);
    assert after.delivered == Poll(w.marker, s, p, r).value.changes;
    if s.Missing? {
      NoChangesAt(log, 0);
      assert DeliveredUpTo(after, 0, 0);
    } else {
      NeverAFragment(w.marker, s, p, r);
      assert DeliveredUpTo(after, after.start.value, CompleteEnd(log));
    }
  }

  lemma LaterPollSound(w: World, m: nat, log: seq<byte>, s: Disk, p: Disk, r: Disk)
    requires w.start.Some? && DeliveredUpTo(w, w.start.value, m) && Poll(w.marker, s, p, r).Success?
    requires |log| <= MAX_INT64 && w.log <= log
    requires s.Present? ==> s.content == w.log
    requires p.Present? ==> w.log <= p.content <= log
    requires r.Present? ==> r.content == log
    ensures var after := AfterPoll(w, log, s, p, r, Stored);
            after.start == w.start && exists m: nat :: DeliveredUpTo(after, after.start.value, m)
  {
    var after := AfterPoll(w, log, s, p, r, Stored);
    PrintedDenotes(m);
    StartsAtMarker(w.log, w.marker, m, s, p);
    if s.Missing? {
      GrowthKeeps(w, log, w.start.value, m);
      assert after.delivered == w.delivered;
      assert DeliveredUpTo(after, after.start.value, m);
    } else {
      NeverAFragment(w.marker, s, p, r);
      PollContinues(w, w.start.value, m, log, Poll(w.marker, s, p, r).value);
      assert DeliveredUpTo(after, after.start.value, CompleteEnd(log));
    }
  }

  lemma StoredPollSound(w: World, log: seq<byte>, s: Disk, p: Disk, r: Disk, marker: string)
    requires Sound(w, marker) && |log| <= MAX_INT64 && w.log <= log && Poll(w.marker, s, p, r).Success?
    requires s.Present? ==> s.content == w.log
    requires p.Present? ==> w.log <= p.content <= log
    requires r.Present? ==> r.content == log
    ensures Sound(AfterPoll(w, log, s, p, r, Stored), marker)
  {
    ExtraStays(w, log);
    assert ExtraFromLog(AfterPoll(w, log, s, p, r, Stored));
    if w.start.None? {
      FirstPollSound(w, log, s, p, r);
    } else {
      var m: nat :| DeliveredUpTo(w, w.start.value, m);
      LaterPollSound(w, m, log, s, p, r);
    }
  }

  /** What any poll reports is in the log. */
  lemma ReportedIsInLog(marker: string, s: Disk, p: Disk, r: Disk, log: seq<byte>)
    requires Poll(marker, s, p, r).Success?
    requires p.Present? ==> p.content <= log
    requires r.Present? ==> r.content == log
    ensures forall c | c in Poll(marker, s, p, r).value.changes :: c in Changes(log)
  {
    if !s.Missing? {
      NeverAFragment(marker, s, p, r);
      ChangesFromStart(log, StartedAt(marker, s, p, log));
    }
  }

  lemma DiscardedPollSound(w: World, log: seq<byte>, s: Disk, p: Disk, r: Disk, queued: seq<bool>, marker: string)
    requires Sound(w, marker) && w.log <= log && Poll(w.marker, s, p, r).Success?
    requires p.Present? ==> p.content <= log
    requires r.Present? ==> r.content == log
    ensures Sound(AfterPoll(w, log, s, p, r, Discarded(queued)), marker)
  {
    QuietStepSound(w, log, marker);
    ReportedIsInLog(w.marker, s, p, r, log);
    QueuedAreChanges(Poll(w.marker, s, p, r).value.changes, queued);
    SoundWithExtra(w.(log := log), Queued(Poll(w.marker, s, p, r).value.changes, queued), marker);
  }

  lemma SoundWithExtra(w: World, more: seq<Change>, marker: string)
    requires Sound(w, marker) && forall c | c in more :: c in Changes(w.log)
    ensures Sound(w.(extra := w.extra + more), marker)
  {
    if w.start.Some? {
      var m: nat :| DeliveredUpTo(w, w.start.value, m);
      assert DeliveredUpTo(w.(extra := w.extra + more), w.start.value, m);
    }
  }

  lemma QuietStepSound(w: World, log: seq<byte>, marker: string)
    requires Sound(w, marker) && w.log <= log
    ensures Sound(w.(log := log), marker)
  {
    ExtraStays(w, log);
    if w.start.Some? {
      var m: nat :| DeliveredUpTo(w, w.start.value, m);
      GrowthKeeps(w, log, w.start.value, m);
    }
  }

  lemma PollSound(w: World, log: seq<byte>, s: Disk, p: Disk, r: Disk, host: Host, marker: string)
    requires Sound(w, marker) && |log| <= MAX_INT64 && w.log <= log
    requires s.Present? ==> s.content == w.log
    requires p.Present? ==> w.log <= p.content <= log
    requires r.Present? ==> r.content == log
    ensures Sound(AfterPoll(w, log, s, p, r, host), marker)
  {
    if Poll(w.marker, s, p, r).Failure? {
      QuietStepSound(w, log, marker);
    } else {
      match host
      case Stored => StoredPollSound(w, log, s, p, r, marker);
      case Discarded(queued) => DiscardedPollSound(w, log, s, p, r, queued, marker);
    }
  }

  lemma StepSound(w: World, e: Event, marker: string)
    requires Sound(w, marker) && |Step(w, e).log| <= MAX_INT64
    ensures Sound(Step(w, e), marker)
  {
    match e
    case Append(data) => QuietStepSound(w, w.log + data, marker);
    case PollNow(stat, grown, peek, grownMore, read, host) =>
      var log1 := w.log + grown;
      var log2 := log1 + grownMore;
      assert w.log <= log1 <= log2;
      PollSound(w, log2, See(stat, w.log), See(peek, log1), See(read, log2), host, marker);
  }

  lemma {:induction false} LogOnlyGrows(w: World, events: seq<Event>)
    ensures w.log <= Run(w, events).log
    decreases |events|
  {
    if events != [] {
      LogOnlyGrows(Step(w, events[0]), events[1..]);
    }
  }

  lemma {:induction false} RunSound(w: World, events: seq<Event>, marker: string)
    requires Sound(w, marker) && |Run(w, events).log| <= MAX_INT64
    ensures Sound(Run(w, events), marker)
    decreases |events|
  {
    if events != [] {
      LogOnlyGrows(Step(w, events[0]), events[1..]);
      StepSound(w, events[0], marker);
      RunSound(Step(w, events[0]), events[1..], marker);
    }
  }

  /** Exactly once.  From any log and any marker, after any interleaving of appends with polls
      that may find the log missing, refused or unreadable: polls whose marker the host stored
      delivered nothing before the first of them, and since then exactly the changes between its
      starting offset and the current marker, in order, each once.  What polls with a discarded marker
      delivered besides are lines of the log. */
  lemma ExactlyOnce(log: seq<byte>, marker: string, events: seq<Event>)
    requires |Run(Fresh(log, marker), events).log| <= MAX_INT64
    ensures Sound(Run(Fresh(log, marker), events), marker)
  {
    RunSound(Fresh(log, marker), events, marker);
  }

  /** A new source starts from now.  Whatever the log held when the first poll whose marker was stored
      had read it, that poll delivers none of it, and neither does anything later: what is delivered
      from then on is what follows the last line complete at that poll. */
  lemma FirstPollStartsFromNow(log: seq<byte>, before: seq<Event>, first: Event, later: seq<Event>)
    requires var w := Run(Fresh(log, ""), before);
             w.start.None? && first.PollNow? && first.stat.Opened? && Step(w, first).start.Some?
    requires |Run(Step(Run(Fresh(log, ""), before), first), later).log| <= MAX_INT64
    ensures var now := Step(Run(Fresh(log, ""), before), first);
            var w := Run(now, later);
            && now.delivered == [] && now.log <= w.log && w.start == Some(CompleteEnd(now.log))
            && exists m: nat :: DeliveredUpTo(w, CompleteEnd(now.log), m)
  {
    var w := Run(Fresh(log, ""), before);
    var now := Step(w, first);
    LogOnlyGrows(w, [first]);
    OneEvent(w, first);
    LogOnlyGrows(now, later);
    ExactlyOnce(log, "", before);
    FirstStoredPoll(w, first);
    StepSound(w, first, "");
    RunSound(now, later, "");
    StartIsKept(now, later);
  }

  lemma OneEvent(w: World, e: Event)
    ensures Run(w, [e]) == Step(w, e)
  {
    assert [e][1..] == [];
  }

  lemma FirstStoredPoll(w: World, first: Event)
    requires w.start.None? && w.delivered == [] && w.marker == ""
    requires first.PollNow? && first.stat.Opened? && Step(w, first).start.Some?
    ensures Step(w, first).delivered == [] && Step(w, first).start == Some(CompleteEnd(Step(w, first).log))
  {
    var log1 := w.log + first.grown;
    var log2 := log1 + first.grownMore;
    var stat, peek, read := See(first.stat, w.log), See(first.peek, log1), See(first.read, log2);
    PollFailsExactly("", stat, peek, read);
    ForeignMarkerResyncs("", stat, peek, read);
    EmptyMarkerStart(stat, peek, log2);
  }

  lemma EmptyMarkerStart(stat: Disk, peek: Disk, log: seq<byte>)
    requires stat.Present?
    ensures StartedAt("", stat, peek, log) == CompleteEnd(log)
  {
  }

  lemma CleanStep(w: World)
    ensures Step(w, CLEAN_POLL)
            == AfterPoll(w, w.log, Present(w.log, None), Present(w.log, None), Present(w.log, None), Stored)
  {
    assert w.log + [] == w.log;
  }

  /** A poll that could read everything moves the marker to the end of the last line. */
  lemma CleanPollEnds(w: World)
    ensures var after := Step(w, CLEAN_POLL);
            && after.log == w.log && after.marker == FormatInt(CompleteEnd(w.log))
            && after.start == if w.start.Some? then w.start else Some(StableStart(w.marker, w.log))
  {
    CleanStep(w);
    StablePollReports(w.marker, w.log);
  }

  lemma MarkerTellsEnd(w: World, s: nat, m: nat)
    requires DeliveredUpTo(w, s, m) && w.marker == FormatInt(CompleteEnd(w.log))
    ensures s <= |w.log| && w.delivered == Changes(w.log[s..])
  {
    assert m == Value(w.marker) == CompleteEnd(w.log);
    ReportFrom(w.log, s);
  }

  lemma CleanPollCatchesUp(w: World, marker: string)
    requires Sound(w, marker) && |w.log| <= MAX_INT64
    ensures var after := Step(w, CLEAN_POLL);
            && after.start.Some? && after.start.value <= |w.log|
            && after.delivered == Changes(w.log[after.start.value..])
  {
    CleanPollEnds(w);
    StepSound(w, CLEAN_POLL, marker);
    var after := Step(w, CLEAN_POLL);
    var m: nat :| DeliveredUpTo(after, after.start.value, m);
    MarkerTellsEnd(after, after.start.value, m);
  }

  /** After a poll that could read everything, nothing complete is still waiting: the changes since
      the start are those of the whole log from there, whatever the schedule before it was. */
  lemma CaughtUp(log: seq<byte>, marker: string, events: seq<Event>)
    requires |Run(Fresh(log, marker), events).log| <= MAX_INT64
    ensures var w := Step(Run(Fresh(log, marker), events), CLEAN_POLL);
            && w.start.Some? && w.start.value <= |w.log|
            && w.log == Run(Fresh(log, marker), events).log
            && w.delivered == Changes(w.log[w.start.value..])
            && w.marker == FormatInt(CompleteEnd(w.log))
  {
    var before := Run(Fresh(log, marker), events);
    ExactlyOnce(log, marker, events);
    CleanPollEnds(before);
    CleanPollCatchesUp(before, marker);
  }

  lemma {:induction false} StartIsKept(w: World, events: seq<Event>)
    requires w.start.Some?
    ensures Run(w, events).start == w.start
    decreases |events|
  {
    if events != [] {
      StartIsKept(Step(w, events[0]), events[1..]);
    }
  }

  /** The poll schedule does not matter: once a source has been polled, any two schedules of polls
      and appends that build the same log deliver the same changes, however many polls they make
      and however those polls fail, race with the writer or have their markers discarded; only what
      the latter delivered besides can differ. */
  lemma ScheduleDoesNotMatter(log: seq<byte>, marker: string, before: seq<Event>, one: seq<Event>, other: seq<Event>)
    requires var polled := Run(Fresh(log, marker), before);
             && polled.start.Some?
             && Run(polled, one).log == Run(polled, other).log
             && |Run(polled, one).log| <= MAX_INT64
    ensures var polled := Run(Fresh(log, marker), before);
            Step(Run(polled, one), CLEAN_POLL).(extra := []) == Step(Run(polled, other), CLEAN_POLL).(extra := [])
  {
    var polled := Run(Fresh(log, marker), before);
    RunOfBoth(Fresh(log, marker), before, one);
    RunOfBoth(Fresh(log, marker), before, other);
    StartIsKept(polled, one);
    StartIsKept(polled, other);
    CaughtUp(log, marker, before + one);
    CaughtUp(log, marker, before + other);
  }

  lemma {:induction false} RunOfBoth(w: World, first: seq<Event>, second: seq<Event>)
    ensures Run(w, first + second) == Run(Run(w, first), second)
    decreases |first|
  {
    var both := first + second;
    if first == [] {
      assert both == second;
    } else {
      assert both[0] == first[0] && both[1..] == first[1..] + second;
      RunOfBoth(Step(w, first[0]), first[1..], second);
    }
  }

  // ---------- repeating a poll ----------

  lemma AllReported(marker: string, log: seq<byte>)
    ensures StableStart(marker, log) == 0 ==> StablePoll(marker, log).value.changes == Changes(log)
  {
    StablePollReports(marker, log);
    ChangesFromStart(log, StableStart(marker, log));
  }

  /** The marker was past the end of the earlier log and is a line boundary of the grown one. */
  predicate ReachesMarker(marker: string, log: seq<byte>, all: seq<byte>) {
    match StoredOffset(marker)
    case None => false
    case Some(o) => |log| < o <= |all| && all[o - 1] == NEWLINE
  }

  lemma SameStart(marker: string, log: seq<byte>, all: seq<byte>)
    requires StoredOffset(marker).Some? && log <= all && !ReachesMarker(marker, log, all)
    ensures StableStart(marker, log) == StableStart(marker, all)
  {
    var o := StoredOffset(marker).value;
    StableStartAt(marker, o, log);
    StableStartAt(marker, o, all);
    assert 0 < o <= |log| ==> all[o - 1] == log[o - 1];
  }

  lemma RepeatedFrom(marker: string, log: seq<byte>, all: seq<byte>)
    requires StoredOffset(marker).Some? && log <= all && !ReachesMarker(marker, log, all)
    ensures StablePoll(marker, log).Success? && StablePoll(marker, all).Success?
    ensures StablePoll(marker, log).value.changes <= StablePoll(marker, all).value.changes
  {
    SameStart(marker, log, all);
    StablePollReports(marker, log);
    StablePollReports(marker, all);
    ReportGrows(log, all, StableStart(marker, log));
  }

  lemma RepeatedPast(marker: string, log: seq<byte>, all: seq<byte>)
    requires log <= all && ReachesMarker(marker, log, all)
    ensures StablePoll(marker, log).Success? && StablePoll(marker, all).Success?
    ensures StablePoll(marker, log).value.changes == Changes(log)
    ensures StablePoll(marker, all).value.changes == Changes(all[StoredOffset(marker).value..])
  {
    var o := StoredOffset(marker).value;
    StableStartAt(marker, o, log);
    StableStartAt(marker, o, all);
    AllReported(marker, log);
    StablePollReports(marker, log);
    StablePollReports(marker, all);
    ReportFrom(all, o);
  }

  /** Repeating a poll.  With the same marker, a later poll of the grown log reports what the earlier
      one did and then more, if and only if the log did not grow past the marker to a line boundary
      there, or what follows the marker then happens to begin with all the earlier poll reported. */
  lemma RepeatedPollExtends(marker: string, log: seq<byte>, all: seq<byte>)
    requires log <= all
    ensures StablePoll(marker, log).Success? && StablePoll(marker, all).Success?
    ensures StablePoll(marker, log).value.changes <= StablePoll(marker, all).value.changes
            <==> ReachesMarker(marker, log, all) ==> Changes(log) <= Changes(all[StoredOffset(marker).value..])
  {
    if ReachesMarker(marker, log, all) {
      RepeatedPast(marker, log, all);
    } else if StoredOffset(marker).Some? {
      RepeatedFrom(marker, log, all);
    } else {
      ForeignReportsNothing(marker, log);
      ForeignReportsNothing(marker, all);
    }
  }

  lemma ForeignReportsNothing(marker: string, log: seq<byte>)
    requires StoredOffset(marker).None?
    ensures StablePoll(marker, log).Success? && StablePoll(marker, log).value.changes == []
  {
  }

  /** The exception happens: the marker 4 on a log of one line reports that line; once a second line
      has reached the marker, the same marker reports nothing. */
  lemma RepeatedPollCanForget()
    ensures StablePoll("4", [97, NEWLINE]).Success? && StablePoll("4", [97, NEWLINE, 98, NEWLINE]).Success?
    ensures StablePoll("4", [97, NEWLINE]).value.changes == [Change([97], File)]
    ensures StablePoll("4", [97, NEWLINE, 98, NEWLINE]).value.changes == []
  {
    var log: seq<byte> := [97, NEWLINE];
    var all: seq<byte> := [97, NEWLINE, 98, NEWLINE];
    PrintedDenotes(4);
    assert FormatInt(4) == "4";
    StablePollReports("4", log);
    StablePollReports("4", all);
    RepeatedPast("4", log, all);
    OneShortLine(97);
    assert all[4..] == [];
  }

  /** In a run: the host meets the truncated log, cannot queue the scans and keeps its marker; the log
      grows to the marker; and the next poll, which could read everything, loses the first line. */
  lemma DiscardedPollCanLose()
    ensures var retry := CLEAN_POLL.(host := Discarded([]));
            var w := Run(Fresh([97, NEWLINE], "4"), [retry, Append([98, NEWLINE]), CLEAN_POLL]);
            && w.log == [97, NEWLINE, 98, NEWLINE] && Changes([97, NEWLINE]) <= Changes(w.log)
            && Changes([97, NEWLINE]) == [Change([97], File)] && w.delivered == [] && w.extra == []
  {
    var retry := CLEAN_POLL.(host := Discarded([]));
    var log: seq<byte> := [97, NEWLINE];
    var all: seq<byte> := [97, NEWLINE, 98, NEWLINE];
    RepeatedPollCanForget();
    assert log + [98, NEWLINE] == all;
    NothingQueued(Fresh(log, "4"));
    CleanStep(Fresh(all, "4"));
    RunOfThree(Fresh(log, "4"), retry, Append([98, NEWLINE]), CLEAN_POLL);
    OneShortLine(97);
    ChangesGrow(log, all);
  }

  lemma NothingQueued(w: World)
    requires w.extra == []
    ensures Step(w, CLEAN_POLL.(host := Discarded([]))) == w
  {
    assert w.log + [] == w.log;
  }

  lemma RunOfThree(w: World, a: Event, b: Event, c: Event)
    ensures Run(w, [a, b, c]) == Step(Step(Step(w, a), b), c)
  {
    assert [a, b, c][1..] == [b, c] && [b, c][1..] == [c] && [c][1..] == [];
    assert Run(Step(w, a), [b, c]) == Run(Step(Step(w, a), b), [c]);
  }

  lemma OneShortLine(b: byte)
    requires b in {97, 98}
    ensures Changes([b, NEWLINE]) == [Change([b], File)]
  {
    var l: seq<byte> := [b, NEWLINE];
    OnlyLine(l);
    ShortLineText(b);
    FlatMapSnoc(Announced, [], l);
  }

  lemma OnlyLine(l: seq<byte>)
    requires IsLine(l)
    ensures Lines(l) == [l]
  {
    FirstLine(l, []);
    assert l + [] == l;
    assert FindNewline([]) == 0;
  }

  lemma ShortLineText(b: byte)
    requires b in {97, 98}
    ensures TrimSpace([b, NEWLINE]) == [b]
  {
    var l: seq<byte> := [b, NEWLINE];
    assert SkipSpace(l, 0) == 0 && DropSpace(l, 0, 2) == 1;
  }

  lemma ReportGrows(log: seq<byte>, all: seq<byte>, from: nat)
    requires Boundary(log, from) && log <= all
    ensures from <= CompleteEnd(log) <= CompleteEnd(all)
    ensures Changes(log[from..CompleteEnd(log)]) <= Changes(all[from..CompleteEnd(all)])
  {
    ReportFrom(log, from);
    ReportGrowsTo(log, all, from, CompleteEnd(log));
  }

  lemma ReportGrowsTo(log: seq<byte>, all: seq<byte>, from: nat, e: nat)
    requires from <= e && Boundary(log, e) && log <= all
    ensures e <= CompleteEnd(all)
    ensures Changes(log[from..e]) <= Changes(all[from..CompleteEnd(all)])
  {
    BoundaryGrows(log, all, e);
    var end := CompleteEnd(all);
    StretchGrows(all, from, e, end);
    assert all[from..e] == log[from..e];
  }

  lemma BoundaryGrows(log: seq<byte>, all: seq<byte>, e: nat)
    requires Boundary(log, e) && log <= all
    ensures Boundary(all, e) && e <= CompleteEnd(all)
  {
    assert e > 0 ==> all[e - 1] == log[e - 1];
    CompleteEndFrom(all, e);
  }

  lemma StretchGrows(c: seq<byte>, s: nat, m: nat, e: nat)
    requires s <= m <= e <= |c| && Boundary(c, m)
    ensures Changes(c[s..m]) <= Changes(c[s..e])
  {
    ChangesJoin(c, s, m, e);
    StartsWith(Changes(c[s..m]), Changes(c[m..e]), Changes(c[s..e]));
  }

  lemma StartsWith<T>(a: seq<T>, b: seq<T>, c: seq<T>)
    requires a + b == c
    ensures a <= c
  {
  }

  // ---------- rotation ----------

  /** A rotated log is read from its start exactly when the marker no longer follows a newline of
      it; otherwise the lines before the marker are skipped.  So all of its changes are reported if
      and only if the restart happens or there was nothing to report before the marker. */
  lemma RotatedLogIsReported(marker: string, m: nat, rotated: seq<byte>)
    requires Denotes(marker, m)
    ensures StablePoll(marker, rotated).Success?
    ensures StablePoll(marker, rotated).value.changes == Changes(rotated)
            <==> (m == 0 || m > |rotated| || rotated[m - 1] != NEWLINE) || Changes(rotated[..m]) == []
  {
    StablePollReports(marker, rotated);
    ChangesFromStart(rotated, StableStart(marker, rotated));
  }

  /** The same over a whole run: rotated is the log as the first poll after the rotation finds it, and
      however polls and appends go on, what has been delivered at a clean poll is the whole of the new
      log under exactly that condition. */
  lemma RotatedRunIsReported(marker: string, m: nat, rotated: seq<byte>, later: seq<Event>)
    requires Denotes(marker, m)
    requires |Run(Step(Fresh(rotated, marker), CLEAN_POLL), later).log| <= MAX_INT64
    ensures Step(Run(Step(Fresh(rotated, marker), CLEAN_POLL), later), CLEAN_POLL).delivered
            == Changes(Run(Step(Fresh(rotated, marker), CLEAN_POLL), later).log)
            <==> (m == 0 || m > |rotated| || rotated[m - 1] != NEWLINE) || Changes(rotated[..m]) == []
  {
    RotatedRunDelivers(marker, rotated, later);
    StableStartAt(marker, m, rotated);
    SkippedWhenRead(Run(Step(Fresh(rotated, marker), CLEAN_POLL), later).log, rotated, m);
  }

  lemma SkippedWhenRead(c: seq<byte>, rotated: seq<byte>, m: nat)
    requires rotated <= c
    ensures var s := if m <= |rotated| && Boundary(rotated, m) then m else 0;
            Changes(c[s..]) == Changes(c)
            <==> (m == 0 || m > |rotated| || rotated[m - 1] != NEWLINE) || Changes(rotated[..m]) == []
  {
    if 0 < m <= |rotated| && rotated[m - 1] == NEWLINE {
      ChangesTail(c, m);
      assert c[..m] == rotated[..m];
      ShorterTail(Changes(c[..m]), Changes(c[m..]));
    } else {
      assert c[0..] == c;
    }
  }

  lemma ShorterTail<T>(a: seq<T>, b: seq<T>)
    ensures b == a + b <==> a == []
  {
    assert |a + b| == |a| + |b|;
  }

  lemma RotatedRunDelivers(marker: string, rotated: seq<byte>, later: seq<Event>)
    requires |Run(Step(Fresh(rotated, marker), CLEAN_POLL), later).log| <= MAX_INT64
    ensures var w, s := Run(Step(Fresh(rotated, marker), CLEAN_POLL), later), StableStart(marker, rotated);
            s <= |w.log| && rotated <= w.log && Step(w, CLEAN_POLL).delivered == Changes(w.log[s..])
  {
    var first := Step(Fresh(rotated, marker), CLEAN_POLL);
    CleanPollEnds(Fresh(rotated, marker));
    LogOnlyGrows(first, later);
    StepSound(Fresh(rotated, marker), CLEAN_POLL, marker);
    RunSound(first, later, marker);
    StartIsKept(first, later);
    CleanPollEnds(Run(first, later));
    CleanPollCatchesUp(Run(first, later), marker);
  }

  lemma ChangesTail(c: seq<byte>, s: nat)
    requires Boundary(c, s)
    ensures Changes(c) == Changes(c[..s]) + Changes(c[s..])
    ensures s == 0 ==> Changes(c[..s]) == []
  {
    ReportFrom(c, s);
    ChangesFromStart(c, s);
    FragmentIsSilent(c[s..]);
  }

  /** The skipped case does happen: a log of one line, rotated into two lines of which the first is
      as long, loses that first line. */
  lemma RotationCanSkip()
    ensures StablePoll("2", [98, NEWLINE, 99, NEWLINE]).Success?
    ensures StablePoll("2", [98, NEWLINE, 99, NEWLINE]).value.changes != Changes([98, NEWLINE, 99, NEWLINE])
  {
    var rotated: seq<byte> := [98, NEWLINE, 99, NEWLINE];
    PrintedDenotes(2);
    assert FormatInt(2) == "2";
    OneShortLine(98);
    assert rotated[..2] == [98, NEWLINE];
    RotatedLogIsReported("2", 2, rotated);
  }
}

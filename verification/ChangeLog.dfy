/**
 What a change log means: its complete lines, where the last of them ends, and the changes they
 announce.  Nothing here says how the log is read; ScanSource reads it and Tailing runs over it.
 */
module ChangeLog {
  import opened Bytes
  import opened Lists

  datatype Scope = File | Subtree

  datatype Change = Change(path: seq<byte>, scope: Scope)

  /** One line of the log as a change: a trailing slash marks a directory. */
  function ChangeFor(line: seq<byte>): (r: Change)
    ensures r.scope == Subtree <==> line != [] && line[|line| - 1] == SLASH
    ensures r.scope == File ==> r.path == line
    ensures r.path != [] ==> r.path[|r.path| - 1] != SLASH
    ensures |r.path| <= |line| && r.path == line[..|r.path|]
    ensures forall i | |r.path| <= i < |line| :: line[i] == SLASH
  {
    if line != [] && line[|line| - 1] == SLASH then Change(TrimSlashes(line), Subtree)
    else Change(line, File)
  }

  /** A complete line: its only newline is its last byte. */
  predicate IsLine(l: seq<byte>) {
    l != [] && l[|l| - 1] == NEWLINE && forall k | 0 <= k < |l| - 1 :: l[k] != NEWLINE
  }

  /** The index of the first newline from i on, or |c| when there is none. */
  function NewlineFrom(c: seq<byte>, i: nat): (n: nat)
    requires i <= |c|
    ensures i <= n <= |c| && forall k | i <= k < n :: c[k] != NEWLINE
    ensures n < |c| ==> c[n] == NEWLINE
    decreases |c| - i
  {
    if i == |c| || c[i] == NEWLINE then i else NewlineFrom(c, i + 1)
  }

  function FindNewline(c: seq<byte>): nat { NewlineFrom(c, 0) }

  /** The complete lines of c in order; a fragment after the last newline is not one of them. */
  function Lines(c: seq<byte>): (ls: seq<seq<byte>>)
    ensures forall k | 0 <= k < |ls| :: IsLine(ls[k])
    decreases |c|
  {
    var i := FindNewline(c);
    if i == |c| then [] else [c[..i + 1]] + Lines(c[i + 1..])
  }

  function Join(ls: seq<seq<byte>>): seq<byte> {
    if ls == [] then [] else ls[0] + Join(ls[1..])
  }

  /** Offset o does not cut a line of c. */
  predicate Boundary(c: seq<byte>, o: nat) { o <= |c| && (o == 0 || c[o - 1] == NEWLINE) }

  /** n is the offset just past the last newline of c, 0 when there is none. */
  predicate EndsLastLine(c: seq<byte>, n: nat) {
    Boundary(c, n) && forall k | n <= k < |c| :: c[k] != NEWLINE
  }

  /** The last boundary at or before n. */
  function BoundaryUpTo(c: seq<byte>, n: nat): (m: nat)
    requires n <= |c|
    ensures m <= n && Boundary(c, m) && forall k | m <= k < n :: c[k] != NEWLINE
  {
    if n == 0 || c[n - 1] == NEWLINE then n else BoundaryUpTo(c, n - 1)
  }

  function CompleteEnd(c: seq<byte>): nat { BoundaryUpTo(c, |c|) }

  /** The text of a line without surrounding white space; a blank line has none. */
  function Text(l: seq<byte>): seq<seq<byte>> {
    if TrimSpace(l) == [] then [] else [TrimSpace(l)]
  }

  /** What one line announces: at most one change. */
  function Announced(l: seq<byte>): seq<Change> {
    if TrimSpace(l) == [] then [] else [ChangeFor(TrimSpace(l))]
  }

  /** The changes a stretch of log announces. */
  function Changes(c: seq<byte>): seq<Change> { FlatMap(Announced, Lines(c)) }

  // ---------- the end of the last complete line ----------

  /** There is only one end of the last line, so CompleteEnd is it. */
  lemma CompleteEndUnique(c: seq<byte>, n: nat)
    requires EndsLastLine(c, n)
    ensures n == CompleteEnd(c)
  {
    var m := CompleteEnd(c);
    assert n > 0 ==> c[n - 1] == NEWLINE;
  }

  lemma CompleteEndFrom(c: seq<byte>, o: nat)
    requires Boundary(c, o)
    ensures CompleteEnd(c) == o + CompleteEnd(c[o..])
  {
    var n := CompleteEnd(c[o..]);
    assert forall k | o + n <= k < |c| :: c[k] == c[o..][k - o];
    assert n > 0 ==> c[o + n - 1] == c[o..][n - 1];
    CompleteEndUnique(c, o + n);
  }

  // ---------- splitting a log at a boundary ----------

  lemma FirstLine(l: seq<byte>, rest: seq<byte>)
    requires IsLine(l)
    ensures Lines(l + rest) == [l] + Lines(rest)
  {
    var c := l + rest;
    var i := FindNewline(c);
    assert c[|l| - 1] == NEWLINE;
    assert c[i] == NEWLINE && i == |l| - 1;
    assert c[..i + 1] == l && c[i + 1..] == rest;
  }

  /** The first line of a log that ends in a newline, and the log after it. */
  lemma SplitOff(a: seq<byte>) returns (l: seq<byte>, rest: seq<byte>)
    requires a != [] && Boundary(a, |a|)
    ensures IsLine(l) && a == l + rest && |rest| < |a| && Boundary(rest, |rest|)
  {
    var i := FindNewline(a);
    l, rest := a[..i + 1], a[i + 1..];
  }

  lemma {:induction false} LinesSplit(a: seq<byte>, b: seq<byte>)
    requires Boundary(a, |a|)
    ensures Lines(a + b) == Lines(a) + Lines(b)
    decreases |a|
  {
    if a == [] {
      assert a + b == b && Lines(a) == [];
    } else {
      var l, rest := SplitOff(a);
      calc {
        Lines(a + b);
        { assert a + b == l + (rest + b); }
        Lines(l + (rest + b));
        { FirstLine(l, rest + b); }
        [l] + Lines(rest + b);
        { LinesSplit(rest, b); }
        [l] + (Lines(rest) + Lines(b));
        ([l] + Lines(rest)) + Lines(b);
        { FirstLine(l, rest); }
        Lines(a) + Lines(b);
      }
    }
  }

  /** Reading a log in two pieces cut at a line boundary announces exactly the same changes. */
  lemma ChangesSplit(a: seq<byte>, b: seq<byte>)
    requires Boundary(a, |a|)
    ensures Changes(a + b) == Changes(a) + Changes(b)
  {
    LinesSplit(a, b);
    FlatMapSplit(Announced, Lines(a), Lines(b));
  }

  /** The same for a stretch: [s, m) then [m, e) is [s, e). */
  lemma ChangesJoin(c: seq<byte>, s: nat, m: nat, e: nat)
    requires s <= m <= e <= |c| && Boundary(c, m)
    ensures Changes(c[s..m]) + Changes(c[m..e]) == Changes(c[s..e])
  {
    assert c[s..m] + c[m..e] == c[s..e];
    assert m > s ==> c[s..m][m - s - 1] == c[m - 1];
    ChangesSplit(c[s..m], c[m..e]);
  }

  /** An unfinished last line announces nothing. */
  lemma FragmentIsSilent(c: seq<byte>)
    ensures Lines(c) == Lines(c[..CompleteEnd(c)])
    ensures Changes(c) == Changes(c[..CompleteEnd(c)])
  {
    var n := CompleteEnd(c);
    var rest := c[n..];
    assert c == c[..n] + rest;
    LinesSplit(c[..n], rest);
    assert forall k | 0 <= k < |rest| :: rest[k] == c[n + k];
    assert FindNewline(rest) == |rest|;
  }

  // ---------- Lines is the only way to cut a log into complete lines ----------

  lemma {:induction false} LinesRebuild(c: seq<byte>)
    ensures Join(Lines(c)) == c[..CompleteEnd(c)]
    decreases |c|
  {
    var i := FindNewline(c);
    if i == |c| {
      CompleteEndUnique(c, 0);
    } else {
      var l, rest := c[..i + 1], c[i + 1..];
      calc {
        Join(Lines(c));
        Join([l] + Lines(rest));
        { JoinCons(l, Lines(rest)); }
        l + Join(Lines(rest));
        { LinesRebuild(rest); }
        l + rest[..CompleteEnd(rest)];
        { CompleteEndFrom(c, i + 1); }
        c[..CompleteEnd(c)];
      }
    }
  }

  lemma JoinCons(l: seq<byte>, ls: seq<seq<byte>>)
    ensures Join([l] + ls) == l + Join(ls)
  {
    assert ([l] + ls)[1..] == ls;
  }

  lemma {:induction false} JoinSnoc(ls: seq<seq<byte>>, l: seq<byte>)
    ensures Join(ls + [l]) == Join(ls) + l
  {
    if ls == [] {
      assert ls + [l] == [l];
      assert Join([l]) == l + Join([]);
    } else {
      var more := ls + [l];
      assert more[0] == ls[0] && more[1..] == ls[1..] + [l];
      JoinSnoc(ls[1..], l);
      assert Join(more) == ls[0] + (Join(ls[1..]) + l);
    }
  }

  lemma {:induction false} JoinEndsInNewline(ls: seq<seq<byte>>)
    requires forall k | 0 <= k < |ls| :: IsLine(ls[k])
    ensures Boundary(Join(ls), |Join(ls)|)
  {
    if ls != [] {
      JoinEndsInNewline(ls[1..]);
    }
  }

  /** Any cut of the log into complete lines and a rest without a newline is the one Lines makes. */
  lemma {:induction false} LinesUnique(ls: seq<seq<byte>>, rest: seq<byte>)
    requires forall k | 0 <= k < |ls| :: IsLine(ls[k])
    requires forall k | 0 <= k < |rest| :: rest[k] != NEWLINE
    ensures Lines(Join(ls) + rest) == ls
  {
    if ls == [] {
      assert Join(ls) + rest == rest;
      assert FindNewline(rest) == |rest|;
    } else {
      var tail := Join(ls[1..]) + rest;
      LinesUnique(ls[1..], rest);
      assert Join(ls) + rest == ls[0] + tail;
      FirstLine(ls[0], tail);
    }
  }

  /** The same, with the end of the last line. */
  lemma AllLines(ls: seq<seq<byte>>, rest: seq<byte>)
    requires forall k | 0 <= k < |ls| :: IsLine(ls[k])
    requires forall k | 0 <= k < |rest| :: rest[k] != NEWLINE
    ensures Lines(Join(ls) + rest) == ls
    ensures CompleteEnd(Join(ls) + rest) == |Join(ls)|
  {
    var c, n := Join(ls) + rest, |Join(ls)|;
    LinesUnique(ls, rest);
    JoinEndsInNewline(ls);
    assert forall k | n <= k < |c| :: c[k] == rest[k - n];
    CompleteEndUnique(c, n);
  }

  // ---------- what a single change says ----------

  /** c is the trimmed text of the whole line l, which is not blank. */
  predicate Reports(l: seq<byte>, c: Change) {
    IsLine(l) && TrimSpace(l) != [] && c == ChangeFor(TrimSpace(l))
  }

  /** Every announced change is the text of one whole line, and stays on one line. */
  lemma ChangeComesFromLine(c: seq<byte>, change: Change) returns (k: nat)
    requires change in Changes(c)
    ensures k < |Lines(c)| && Reports(Lines(c)[k], change)
    ensures forall i | 0 <= i < |change.path| :: change.path[i] != NEWLINE
  {
    k := FlatMapOrigin(Announced, Lines(c), change);
    ReportedOnOneLine(Lines(c)[k], change);
  }

  lemma ReportedOnOneLine(l: seq<byte>, change: Change)
    requires IsLine(l) && change in Announced(l)
    ensures Reports(l, change)
    ensures forall i | 0 <= i < |change.path| :: change.path[i] != NEWLINE
  {
    TrimmedHasNoNewline(l);
  }

  // ---------- changes, line by line ----------

  /** A line that is not blank gives exactly its own change, a blank one gives none. */
  lemma ChangesOneByOne(l: seq<byte>, rest: seq<byte>)
    requires IsLine(l)
    ensures Changes(l + rest) == (if TrimSpace(l) == [] then [] else [ChangeFor(TrimSpace(l))]) + Changes(rest)
  {
    FirstLine(l, rest);
    FlatMapSplit(Announced, [l], Lines(rest));
    FlatMapSnoc(Announced, [], l);
  }

  /** And where no line ends there is no change. */
  lemma NoLineNoChange(c: seq<byte>)
    requires forall k | 0 <= k < |c| :: c[k] != NEWLINE
    ensures Changes(c) == []
  {
    assert FindNewline(c) == |c|;
  }
}

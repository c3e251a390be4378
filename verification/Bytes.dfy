/**
 Byte strings with the parts of Go's strings package that read log lines.  White space is that of
 unicode.IsSpace, written out as its UTF-8 encodings, so trimming is exact on arbitrary bytes.
 */
module Bytes {

  newtype byte = b: int | 0 <= b < 256

  const NEWLINE: byte := 10
  const SLASH: byte := 47

  /** The width of the white-space character encoded at index i, before end; 0 when there is none. */
  function SpaceAt(s: seq<byte>, i: nat, end: nat): (n: nat)
    requires i <= end <= |s|
    ensures i + n <= end
  {
    if i < end && (9 <= s[i] <= 13 || s[i] == 32) then 1
    else if i + 1 < end && s[i] == 0xC2 && (s[i + 1] == 0x85 || s[i + 1] == 0xA0) then 2
    else if i + 2 < end && IsWideSpace(s[i], s[i + 1], s[i + 2]) then 3
    else 0
  }

  /** The three-byte white-space characters: U+1680, U+2000 to U+200A, U+2028, U+2029, U+202F,
      U+205F and U+3000. */
  predicate IsWideSpace(a: byte, b: byte, c: byte) {
    || (a == 0xE1 && b == 0x9A && c == 0x80)
    || (a == 0xE2 && b == 0x80 && (0x80 <= c <= 0x8A || c == 0xA8 || c == 0xA9 || c == 0xAF))
    || (a == 0xE2 && b == 0x81 && c == 0x9F)
    || (a == 0xE3 && b == 0x80 && c == 0x80)
  }

  /** The bytes in [i, j) are white-space characters, one after another. */
  predicate AllSpace(s: seq<byte>, i: nat, j: nat)
    requires i <= j <= |s|
    decreases j - i
  {
    i == j || (SpaceAt(s, i, j) > 0 && AllSpace(s, i + SpaceAt(s, i, j), j))
  }

  /** The index of the first character from i on that is not white space. */
  function SkipSpace(s: seq<byte>, i: nat): (j: nat)
    requires i <= |s|
    ensures i <= j <= |s| && SpaceAt(s, j, |s|) == 0
    decreases |s| - i
  {
    if SpaceAt(s, i, |s|) == 0 then i else SkipSpace(s, i + SpaceAt(s, i, |s|))
  }

  /** The width of the white-space character that ends at index j and does not start before i. */
  function SpaceBefore(s: seq<byte>, i: nat, j: nat): (n: nat)
    requires i <= j <= |s|
    ensures i + n <= j && (n > 0 ==> SpaceAt(s, j - n, j) == n)
    ensures n == 0 ==> forall k | i <= k < j :: SpaceAt(s, k, j) != j - k
  {
    if i + 1 <= j && SpaceAt(s, j - 1, j) == 1 then 1
    else if i + 2 <= j && SpaceAt(s, j - 2, j) == 2 then 2
    else if i + 3 <= j && SpaceAt(s, j - 3, j) == 3 then 3
    else 0
  }

  /** The index just past the last character of [i, j) that is not white space. */
  function DropSpace(s: seq<byte>, i: nat, j: nat): (k: nat)
    requires i <= j <= |s|
    ensures i <= k <= j && SpaceBefore(s, i, k) == 0
    decreases j
  {
    if SpaceBefore(s, i, j) == 0 then j else DropSpace(s, i, j - SpaceBefore(s, i, j))
  }

  /** strings.TrimSpace: the longest stretch with no white space at either end. */
  function TrimSpace(s: seq<byte>): seq<byte> {
    var i := SkipSpace(s, 0);
    s[i..DropSpace(s, i, |s|)]
  }

  lemma {:induction false} SkippedIsSpace(s: seq<byte>, i: nat)
    requires i <= |s|
    ensures AllSpace(s, i, SkipSpace(s, i))
    decreases |s| - i
  {
    var n := SpaceAt(s, i, |s|);
    if n > 0 {
      SkippedIsSpace(s, i + n);
      assert SpaceAt(s, i, SkipSpace(s, i)) == n;
    }
  }

  lemma {:induction false} OneSpaceMore(s: seq<byte>, i: nat, k: nat, j: nat)
    requires i <= k <= j <= |s| && AllSpace(s, i, k) && AllSpace(s, k, j)
    ensures AllSpace(s, i, j)
    decreases k - i
  {
    if i < k {
      var n := SpaceAt(s, i, k);
      assert SpaceAt(s, i, j) == n;
      OneSpaceMore(s, i + n, k, j);
    }
  }

  lemma {:induction false} DroppedIsSpace(s: seq<byte>, i: nat, j: nat)
    requires i <= j <= |s|
    ensures AllSpace(s, DropSpace(s, i, j), j)
    decreases j
  {
    var n := SpaceBefore(s, i, j);
    if n > 0 {
      DroppedIsSpace(s, i, j - n);
      assert AllSpace(s, j - n, j);
      OneSpaceMore(s, DropSpace(s, i, j), j - n, j);
    }
  }

  /** Trimming takes white-space characters off both ends, and leaves none there. */
  lemma TrimSpaceIsExact(s: seq<byte>) returns (i: nat, j: nat)
    ensures i <= j <= |s| && TrimSpace(s) == s[i..j]
    ensures AllSpace(s, 0, i) && AllSpace(s, j, |s|)
    ensures SpaceAt(s, i, j) == 0 && SpaceBefore(s, i, j) == 0
  {
    i := SkipSpace(s, 0);
    j := DropSpace(s, i, |s|);
    SkippedIsSpace(s, 0);
    DroppedIsSpace(s, i, |s|);
  }

  /** strings.TrimRight(s, "/"). */
  function TrimSlashes(s: seq<byte>): (t: seq<byte>)
    ensures |t| <= |s| && t == s[..|t|]
    ensures forall i | |t| <= i < |s| :: s[i] == SLASH
    ensures t != [] ==> t[|t| - 1] != SLASH
  {
    if s != [] && s[|s| - 1] == SLASH then TrimSlashes(s[..|s| - 1]) else s
  }

  /** Trimming a line that ends in its only newline removes that newline. */
  lemma TrimmedHasNoNewline(s: seq<byte>)
    requires s != [] && s[|s| - 1] == NEWLINE && forall k | 0 <= k < |s| - 1 :: s[k] != NEWLINE
    ensures forall k | 0 <= k < |TrimSpace(s)| :: TrimSpace(s)[k] != NEWLINE
  {
    assert SpaceAt(s, |s| - 1, |s|) == 1;
  }
}

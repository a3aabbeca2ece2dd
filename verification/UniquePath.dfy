/** Choosing a file name that is not taken in the destination directory. */
module UniquePath {
  import opened Filename
  import opened Numerals
  import opened Seqs

  // ---- the search, for any numbering of candidates ----

  /** No two candidates are the same, and none is the original. */
  ghost predicate IsNumbering<T(!new)>(original: T, candidate: nat -> T) {
    && (forall j, k :: candidate(j) == candidate(k) ==> j == k)
    && (forall j :: candidate(j) != original)
  }

  /** All candidates below `i` exist. */
  predicate AllTaken<T(==)>(existing: set<T>, candidate: nat -> T, i: nat) {
    forall j :: 1 <= j < i ==> candidate(j) in existing
  }

  /** A candidate that is free, with all before it taken and a number of at most |existing|. */
  ghost predicate IsLeastFree<T>(existing: set<T>, candidate: nat -> T, free: T) {
    free !in existing && exists n :: 1 <= n <= |existing| && free == candidate(n) && AllTaken(existing, candidate, n)
  }

  /** Too few names exist to take the original and all candidates below `i`. */
  lemma {:induction false} TakenIsBounded<T(!new)>(existing: set<T>, original: T, candidate: nat -> T, i: nat)
    requires IsNumbering(original, candidate)
    requires i >= 1 && original in existing && AllTaken(existing, candidate, i)
    ensures i <= |existing|
  {
    var tried := seq(i, j requires 0 <= j < i => if j == 0 then original else candidate(j));
    DistinctFit(tried, existing);
  }

  /** The least free number from `i` on: the search ends because existing names run out. */
  function FirstFree<T(==,!new)>(existing: set<T>, ghost original: T, candidate: nat -> T, i: nat): (n: nat)
    requires IsNumbering(original, candidate)
    requires i >= 1 && original in existing && AllTaken(existing, candidate, i)
    ensures i <= n <= |existing| && candidate(n) !in existing && AllTaken(existing, candidate, n)
    decreases |existing| - i
  {
    TakenIsBounded(existing, original, candidate, i);
    if candidate(i) !in existing then i else FirstFree(existing, original, candidate, i + 1)
  }

  // ---- the candidates ----

  /** Cuts before the last dot, if something precedes that dot. */
  function Extension(name: string): (extension: string)
    ensures |extension| <= |name|
  {
    ExtensionFrom(name, |name|)
  }

  function ExtensionFrom(name: string, end: nat): (extension: string)
    requires end <= |name|
    ensures |extension| <= |name| && name[|name| - |extension|..] == extension
    ensures extension == [] || extension[0] == '.'
  {
    if end <= 1 then []
    else if name[end - 1] == '.' then name[end - 1..]
    else ExtensionFrom(name, end - 1)
  }

  function BaseName(name: string): string {
    name[..|name| - |Extension(name)|]
  }

  lemma {:induction false} ExtensionIsLast(name: string, end: nat)
    requires end <= |name|
    ensures forall i :: |name| - |ExtensionFrom(name, end)| < i < end ==> name[i] != '.'
    ensures ExtensionFrom(name, end) == [] ==> forall i :: 1 <= i < end ==> name[i] != '.'
  {
    if end > 1 && name[end - 1] != '.' {
      ExtensionIsLast(name, end - 1);
    }
  }

  /** The source's `rsplit_once('.')` with a non-empty stem: the name is put
      back together by its two parts, the stem is not empty, and the extension
      is empty or holds its only dot in front. */
  lemma {:induction false} ExtensionSplitsAtLastDot(name: string)
    ensures BaseName(name) + Extension(name) == name
    ensures name != [] ==> BaseName(name) != []
    ensures Extension(name) == [] ==> forall i :: 1 <= i < |name| ==> name[i] != '.'
    ensures Extension(name) != [] ==> Extension(name)[0] == '.' && '.' !in Extension(name)[1..]
  {
    ExtensionIsLast(name, |name|);
    StemStays(name, |name|);
    var extension := Extension(name);
    forall i | 0 <= i < |extension| - 1 ensures extension[1..][i] != '.' {
      assert extension[1..][i] == name[|name| - |extension| + i + 1];
    }
  }

  lemma {:induction false} StemStays(name: string, end: nat)
    requires end <= |name|
    ensures name != [] ==> |ExtensionFrom(name, end)| < |name|
  {
    if end > 1 && name[end - 1] != '.' {
      StemStays(name, end - 1);
    }
  }

  function Candidate(name: string, i: nat): string {
    BaseName(name) + " (" + Print(10, i) + ")" + Extension(name)
  }

  lemma {:induction false} CandidatesDiffer(name: string, i: nat, j: nat)
    requires Candidate(name, i) == Candidate(name, j)
    ensures i == j
  {
    var head := BaseName(name) + " (";
    var tail := ")" + Extension(name);
    assert Candidate(name, i) == head + Print(10, i) + tail && Candidate(name, j) == head + Print(10, j) + tail;
    MiddleIsDetermined(head, Print(10, i), Print(10, j), tail);
    PrintIsInjective(10, i, j);
  }

  lemma {:induction false} MiddleIsDetermined(head: string, a: string, b: string, tail: string)
    requires head + a + tail == head + b + tail
    ensures a == b
  {
    var whole := head + a + tail;
    assert |a| == |b|;
    assert a == whole[|head|..|head| + |a|];
    assert b == (head + b + tail)[|head|..|head| + |b|];
  }

  lemma {:induction false} CandidateIsNew(name: string, i: nat)
    ensures Candidate(name, i) != name
  {
    assert |Candidate(name, i)| > |BaseName(name)| + |Extension(name)| == |name|;
  }

  function Candidates(name: string): nat -> string {
    (i: nat) => Candidate(name, i)
  }

  lemma {:induction false} CandidatesAreNumbering(name: string)
    ensures IsNumbering(name, Candidates(name))
  {
    forall j: nat, k: nat | Candidates(name)(j) == Candidates(name)(k) ensures j == k {
      CandidatesDiffer(name, j, k);
    }
    forall j: nat ensures Candidates(name)(j) != name {
      CandidateIsNew(name, j);
    }
  }

  /** The name, inside the directory whose entries are `existing`, that a file
      is saved under. */
  function UniquePath(existing: set<string>, fileName: string, rules: Rules): string {
    var name := SanitizedPath(fileName, rules);
    if name !in existing then name
    else
      CandidatesAreNumbering(name);
      Candidates(name)(FirstFree(existing, name, Candidates(name), 1))
  }

  /** The result is directly inside the directory; ... */
  lemma {:induction false} UniquePathStaysInside(existing: set<string>, fileName: string, rules: Rules)
    ensures IsSegmentOf(UniquePath(existing, fileName, rules))
  {
    var name := SanitizedPath(fileName, rules);
    PathGivesValidName(fileName, rules);
    if name in existing {
      CandidatesAreNumbering(name);
      CandidateIsSegment(name, FirstFree(existing, name, Candidates(name), 1));
    }
  }

  lemma {:induction false} CandidateIsSegment(name: string, i: nat)
    requires '/' !in name
    ensures IsSegmentOf(Candidate(name, i))
  {
    assert name == BaseName(name) + Extension(name);
    var number := Print(10, i);
    assert forall k :: 0 <= k < |number| ==> IsDigit(number[k]);
    assert |Candidate(name, i)| > 3;
  }

  /** ... it is the sanitized name if that is free, or else the least free
      candidate, whose number is at most the number of existing names. */
  lemma {:induction false} UniquePathIsLeast(existing: set<string>, fileName: string, rules: Rules)
    ensures var name := SanitizedPath(fileName, rules);
      if name !in existing then UniquePath(existing, fileName, rules) == name
      else IsLeastFree(existing, Candidates(name), UniquePath(existing, fileName, rules))
  {
    CandidatesAreNumbering(SanitizedPath(fileName, rules));
  }

  /** The two halves at the last dot, unless nothing precedes it. */
  predicate IsSplit(name: string, stem: string, extension: string) {
    && name == stem + extension
    && if extension == "" then forall i :: 1 <= i < |name| ==> name[i] != '.'
       else stem != "" && extension[0] == '.' && '.' !in extension[1..]
  }

  /** No dot but a leading one comes after the one the name is split at. */
  lemma {:induction false} SplitIsAtLastDot(name: string, stem: string, extension: string, d: nat)
    requires IsSplit(name, stem, extension) && 1 <= d < |name| && name[d] == '.'
    ensures extension != "" && d <= |stem|
  {
    if extension != "" {
      var tail := extension[1..];
      forall k | |stem| < k < |name| ensures name[k] != '.' {
        assert name[k] == tail[k - |stem| - 1];
      }
    }
  }

  lemma {:induction false} SplitIsBaseAndExtension(name: string, stem: string, extension: string)
    requires name != "" && IsSplit(name, stem, extension)
    ensures BaseName(name) == stem && Extension(name) == extension
  {
    ExtensionSplitsAtLastDot(name);
    var base, own := BaseName(name), Extension(name);
    assert IsSplit(name, base, own);
    if extension != "" {
      SplitIsAtLastDot(name, base, own, |stem|);
    }
    if own != "" {
      SplitIsAtLastDot(name, stem, extension, |base|);
    }
    assert own == name[|base|..] && extension == name[|stem|..] && base == name[..|base|] && stem == name[..|stem|];
  }

  /** The file as it was, with a number in parentheses before its extension. */
  function Numbered(stem: string, extension: string, n: nat): string {
    stem + " (" + Print(10, n) + ")" + extension
  }

  /** What a file is saved under when its name is taken: its stem, the least
      number from 1 on that makes it free, and its extension. */
  lemma {:induction false} TakenNameIsNumbered(existing: set<string>, fileName: string, rules: Rules, stem: string,
                                               extension: string)
    requires SanitizedPath(fileName, rules) in existing
    requires IsSplit(SanitizedPath(fileName, rules), stem, extension)
    ensures UniquePath(existing, fileName, rules) !in existing
    ensures exists n: nat ::
              && 1 <= n <= |existing| && UniquePath(existing, fileName, rules) == Numbered(stem, extension, n)
              && forall k: nat :: 1 <= k < n ==> Numbered(stem, extension, k) in existing
  {
    var name := SanitizedPath(fileName, rules);
    PathGivesValidName(fileName, rules);
    SplitIsBaseAndExtension(name, stem, extension);
    CandidatesAreNumbering(name);
    var n := FirstFree(existing, name, Candidates(name), 1);
    assert UniquePath(existing, fileName, rules) == Candidate(name, n) == Numbered(stem, extension, n);
    forall k: nat | 1 <= k < n ensures Numbered(stem, extension, k) in existing {
      assert Candidates(name)(k) == Candidate(name, k) == Numbered(stem, extension, k);
    }
  }
}

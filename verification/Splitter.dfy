/** Recursive character splitting with overlap. */
module Splitter {
  // Parts at the first separator that occurs, merged greedily into chunks that repeat the end of the
  // chunk before.

  import opened Text

  /** CHUNK_SIZE, CHUNK_OVERLAP and MAX_CHUNK_CHARS, as the settings are validated. */
  datatype Limits = Limits(size: nat, overlap: nat, maxChars: nat)

  predicate ValidLimits(limits: Limits)
  {
    0 < limits.size <= limits.maxChars && limits.overlap < limits.size
  }

  const SEPARATORS := ["\n\n", "\n", " ", ""]

  /** The text without the characters that separators are made of. */
  function Erase(text: string): string
  {
    if text == "" then ""
    else
      var last := text[|text| - 1];
      Erase(text[..|text| - 1]) + if last == '\n' || last == ' ' then "" else [last]
  }

  lemma {:induction false} EraseConcat(a: string, b: string)
    ensures Erase(a + b) == Erase(a) + Erase(b)
  {
    if b == "" {
      assert a + b == a;
    } else {
      assert (a + b)[..|a + b| - 1] == a + b[..|b| - 1];
      EraseConcat(a, b[..|b| - 1]);
    }
  }

  predicate Blank(separator: string)
  {
    forall i | 0 <= i < |separator| :: separator[i] == '\n' || separator[i] == ' '
  }

  lemma {:induction false} EraseBlank(separator: string)
    requires Blank(separator)
    ensures Erase(separator) == ""
  {
    if separator != "" {
      EraseBlank(separator[..|separator| - 1]);
    }
  }

  lemma EraseJoinSnoc(separator: string, init: seq<string>, last: string)
    requires Blank(separator)
    ensures Erase(Join(separator, init + [last])) == Erase(Join(separator, init)) + Erase(last)
  {
    JoinSnoc(separator, init, last);
    if init != [] {
      EraseConcat(Join(separator, init) + separator, last);
      EraseConcat(Join(separator, init), separator);
      EraseBlank(separator);
      assert Erase(Join(separator, init)) + "" == Erase(Join(separator, init));
    } else {
      assert Erase(Join(separator, init)) == "";
    }
  }

  /** Erasing a join leaves what erasing the parts leaves. */
  lemma {:induction false} EraseJoin(separator: string, parts: seq<string>)
    requires Blank(separator)
    ensures Erase(Join(separator, parts)) == Erase(Flat(parts))
  {
    if parts != [] {
      var init, last := parts[..|parts| - 1], parts[|parts| - 1];
      assert parts == init + [last];
      EraseJoin(separator, init);
      EraseJoinSnoc(separator, init, last);
      EraseConcat(Flat(init), last);
    }
  }

  // ---------------------------------------------------------------- merging

  /** Parts start..end of the splits make one chunk. */
  datatype Window = Window(start: nat, end: nat)

  function Covered(windows: seq<Window>): nat
  {
    if windows == [] then 0 else windows[|windows| - 1].end
  }

  predicate InRange(w: Window, n: nat)
  {
    w.start < w.end <= n
  }

  /** Windows follow each other without a gap, each ends later and starts no earlier than the one before. */
  predicate Follows(v: Window, w: Window)
  {
    v.start <= w.start <= v.end < w.end
  }

  predicate Windowed(splits: seq<string>, windows: seq<Window>)
  {
    && (forall k | 0 <= k < |windows| :: InRange(windows[k], |splits|))
    && (windows != [] ==> windows[0].start == 0)
    && (forall k | 0 < k < |windows| :: Follows(windows[k - 1], windows[k]))
  }

  /** What two neighbouring chunks share is at most the overlap. */
  predicate OverlapsWithin(splits: seq<string>, separator: string, windows: seq<Window>, overlap: nat)
    requires Windowed(splits, windows)
  {
    forall k | 0 < k < |windows| :: SharedWithin(splits, separator, windows[k - 1], windows[k], overlap)
  }

  predicate SharedWithin(splits: seq<string>, separator: string, v: Window, w: Window, overlap: nat)
    requires InRange(v, |splits|) && Follows(v, w)
  {
    |Join(separator, splits[w.start..v.end])| <= overlap
  }

  predicate AreJoins(splits: seq<string>, separator: string, windows: seq<Window>, chunks: seq<string>)
    requires Windowed(splits, windows)
  {
    |chunks| == |windows| && forall k | 0 <= k < |windows| :: IsJoin(splits, separator, windows[k], chunks[k])
  }

  predicate IsJoin(splits: seq<string>, separator: string, w: Window, chunk: string)
    requires InRange(w, |splits|)
  {
    chunk == Join(separator, splits[w.start..w.end])
  }

  /** Length of the join once another part is added. */
  lemma JoinGrows(separator: string, splits: seq<string>, start: nat, i: nat)
    requires start <= i < |splits|
    ensures |Join(separator, splits[start..i + 1])|
            == |Join(separator, splits[start..i])| + |splits[i]| + if start < i then |separator| else 0
  {
    assert splits[start..i + 1] == splits[start..i] + [splits[i]];
    JoinSnoc(separator, splits[start..i], splits[i]);
  }

  lemma JoinShrinks(separator: string, splits: seq<string>, start: nat, i: nat)
    requires start < i <= |splits|
    ensures |Join(separator, splits[start..i])|
            == |splits[start]| + (if start + 1 < i then |separator| else 0) + |Join(separator, splits[start + 1..i])|
  {
    assert splits[start..i][1..] == splits[start + 1..i];
    assert start + 1 == i ==> splits[start..i] == [splits[start]];
  }

  /** As much of the window start..end as the overlap allows, and no more, is carried into the next. */
  predicate Carried(splits: seq<string>, separator: string, start: nat, end: nat, next: nat, overlap: nat)
    requires end <= |splits|
  {
    && start <= next <= end && |Join(separator, splits[next..end])| <= overlap
    && (next > start ==> |Join(separator, splits[next - 1..end])| > overlap)
  }

  /** The first part from `start` on after which the rest of the window fits the overlap. */
  function NextStart(splits: seq<string>, separator: string, start: nat, end: nat, overlap: nat): (next: nat)
    requires start <= end <= |splits|
    ensures start <= next <= end
    decreases end - start
  {
    if start == end || |Join(separator, splits[start..end])| <= overlap then start
    else NextStart(splits, separator, start + 1, end, overlap)
  }

  /** Drop parts from the front until what is left fits the overlap. */
  method DropToOverlap(splits: seq<string>, separator: string, start: nat, i: nat, currentLen: nat, overlap: nat)
    returns (start': nat, currentLen': nat)
    requires start < i <= |splits| && currentLen == |Join(separator, splits[start..i])|
    ensures start <= start' <= i && currentLen' == |Join(separator, splits[start'..i])| <= overlap
    ensures Carried(splits, separator, start, i, start', overlap)
    ensures start' == NextStart(splits, separator, start, i, overlap)
  {
    start', currentLen' := start, currentLen;
    while start' < i && currentLen' > overlap
      invariant start <= start' <= i && currentLen' == |Join(separator, splits[start'..i])|
      invariant start' > start ==> |Join(separator, splits[start' - 1..i])| > overlap
      invariant NextStart(splits, separator, start, i, overlap) == NextStart(splits, separator, start', i, overlap)
      decreases i - start'
    {
      JoinShrinks(separator, splits, start', i);
      var dropped := |splits[start']| + if i - start' > 1 then |separator| else 0;
      currentLen' := currentLen' - dropped;
      start' := start' + 1;
    }
  }

  /** Appending a window keeps the shape of the list. */
  lemma WindowAppended(splits: seq<string>, separator: string, windows: seq<Window>, chunks: seq<string>, w: Window,
                       overlap: nat)
    requires Windowed(splits, windows) && AreJoins(splits, separator, windows, chunks)
    requires OverlapsWithin(splits, separator, windows, overlap)
    requires InRange(w, |splits|) && (if windows == [] then w.start == 0 else Follows(windows[|windows| - 1], w))
    requires windows != [] ==> SharedWithin(splits, separator, windows[|windows| - 1], w, overlap)
    ensures Windowed(splits, windows + [w])
    ensures AreJoins(splits, separator, windows + [w], chunks + [Join(separator, splits[w.start..w.end])])
    ensures OverlapsWithin(splits, separator, windows + [w], overlap)
  {
    var all := windows + [w];
    forall k | 0 < k < |all| ensures Follows(all[k - 1], all[k]) {
      assert k < |windows| ==> Follows(windows[k - 1], windows[k]);
    }
    forall k | 0 < k < |all| ensures SharedWithin(splits, separator, all[k - 1], all[k], overlap) {
      assert k < |windows| ==> SharedWithin(splits, separator, windows[k - 1], windows[k], overlap);
    }
  }

  /** The state between two parts: parts start..i are current, everything before `start` is in a chunk. */
  ghost predicate Merging(limits: Limits, splits: seq<string>, separator: string, chunks: seq<string>,
                          windows: seq<Window>, start: nat, i: nat)
  {
    && Windowed(splits, windows) && AreJoins(splits, separator, windows, chunks)
    && OverlapsWithin(splits, separator, windows, limits.overlap)
    && start <= i <= |splits| && (i > 0 ==> start < i)
    && (if windows == [] then start == 0
        else var v := windows[|windows| - 1];
             v.start <= start <= v.end < i && |Join(separator, splits[start..v.end])| <= limits.overlap)
  }

  predicate AllAtMost(texts: seq<string>, n: nat)
  {
    forall t | t in texts :: |t| <= n
  }

  // ---------------------------------------------------------------- greedily

  function JoinLength(splits: seq<string>, separator: string, start: nat, end: nat): nat
    requires start <= end <= |splits|
  {
    |Join(separator, splits[start..end])|
  }

  /** The parts after the first new one were added because they fitted. */
  predicate Fitted(limits: Limits, splits: seq<string>, separator: string, from: nat, start: nat, end: nat)
    requires start <= from && end <= |splits|
  {
    forall e | from + 1 < e <= end :: JoinLength(splits, separator, start, e) <= limits.size
  }

  /** The next part did not fit. */
  predicate Filled(limits: Limits, splits: seq<string>, separator: string, w: Window)
  {
    w.start <= w.end < |splits| && JoinLength(splits, separator, w.start, w.end + 1) > limits.size
  }

  predicate Next(limits: Limits, splits: seq<string>, separator: string, v: Window, w: Window)
    requires InRange(v, |splits|) && InRange(w, |splits|)
  {
    && Filled(limits, splits, separator, v)
    && Carried(splits, separator, v.start, v.end, w.start, limits.overlap)
    && Fitted(limits, splits, separator, v.end, w.start, w.end)
  }

  /** Every window is as long as it can be, and carries as much as it may from the one before. */
  predicate Greedy(limits: Limits, splits: seq<string>, separator: string, windows: seq<Window>)
    requires Windowed(splits, windows)
  {
    && (windows != [] ==> Fitted(limits, splits, separator, 0, windows[0].start, windows[0].end))
    && forall k | 0 < k < |windows| :: Next(limits, splits, separator, windows[k - 1], windows[k])
  }

  /** The window being filled, parts start..i, continues the windows that are closed. */
  predicate Filling(limits: Limits, splits: seq<string>, separator: string, windows: seq<Window>, start: nat, i: nat)
  {
    && Windowed(splits, windows) && Greedy(limits, splits, separator, windows)
    && start <= Covered(windows) && i <= |splits| && Fitted(limits, splits, separator, Covered(windows), start, i)
    && (windows != [] ==> var v := windows[|windows| - 1];
         Filled(limits, splits, separator, v) && Carried(splits, separator, v.start, v.end, start, limits.overlap))
  }

  lemma WindowClosed(limits: Limits, splits: seq<string>, separator: string, windows: seq<Window>, start: nat, i: nat)
    requires Filling(limits, splits, separator, windows, start, i) && Windowed(splits, windows + [Window(start, i)])
    ensures Greedy(limits, splits, separator, windows + [Window(start, i)])
  {
    var all := windows + [Window(start, i)];
    forall k | 0 < k < |all| ensures Next(limits, splits, separator, all[k - 1], all[k]) {
      assert k < |windows| ==> Next(limits, splits, separator, windows[k - 1], windows[k]);
    }
  }

  /** The next part fits, or is the very first. */
  lemma PartAdded(limits: Limits, splits: seq<string>, separator: string, chunks: seq<string>, windows: seq<Window>,
                  start: nat, i: nat)
    requires Merging(limits, splits, separator, chunks, windows, start, i) && i < |splits|
    requires Filling(limits, splits, separator, windows, start, i)
    requires i == 0 || JoinLength(splits, separator, start, i + 1) <= limits.size
    ensures Merging(limits, splits, separator, chunks, windows, start, i + 1)
    ensures Filling(limits, splits, separator, windows, start, i + 1)
  {
  }

  /** The next part does not fit: it goes into a new window, behind what is carried over. */
  lemma WindowFlushed(limits: Limits, splits: seq<string>, separator: string, chunks: seq<string>, windows: seq<Window>,
                      start: nat, i: nat, next: nat)
    requires Merging(limits, splits, separator, chunks, windows, start, i) && start < i < |splits|
    requires Filling(limits, splits, separator, windows, start, i)
    requires JoinLength(splits, separator, start, i + 1) > limits.size
    requires Carried(splits, separator, start, i, next, limits.overlap)
    ensures var closed := windows + [Window(start, i)];
      && Merging(limits, splits, separator, chunks + [Join(separator, splits[start..i])], closed, next, i + 1)
      && Filling(limits, splits, separator, closed, next, i + 1)
  {
    WindowAppended(splits, separator, windows, chunks, Window(start, i), limits.overlap);
    WindowClosed(limits, splits, separator, windows, start, i);
  }

  /** What is left at the end makes the last window. */
  lemma LastWindow(limits: Limits, splits: seq<string>, separator: string, chunks: seq<string>, windows: seq<Window>,
                   start: nat)
    requires Merging(limits, splits, separator, chunks, windows, start, |splits|) && start < |splits|
    requires Filling(limits, splits, separator, windows, start, |splits|)
    ensures var all := windows + [Window(start, |splits|)];
      && Windowed(splits, all) && AreJoins(splits, separator, all, chunks + [Join(separator, splits[start..|splits|])])
      && OverlapsWithin(splits, separator, all, limits.overlap) && Greedy(limits, splits, separator, all)
  {
    WindowAppended(splits, separator, windows, chunks, Window(start, |splits|), limits.overlap);
    WindowClosed(limits, splits, separator, windows, start, |splits|);
  }

  /** Being greedy leaves no choice: the windows are determined by the parts. */
  lemma {:induction false} GreedyIsUnique(limits: Limits, splits: seq<string>, separator: string, a: seq<Window>,
                                          b: seq<Window>, n: nat)
    requires Windowed(splits, a) && Greedy(limits, splits, separator, a) && Covered(a) == |splits|
    requires Windowed(splits, b) && Greedy(limits, splits, separator, b) && Covered(b) == |splits|
    requires n <= |a| && n <= |b|
    ensures a[..n] == b[..n]
    ensures n == |a| ==> a == b
  {
    if n > 0 {
      GreedyIsUnique(limits, splits, separator, a, b, n - 1);
      SamePrefix(a, b, n - 1);
      SameWindow(limits, splits, separator, a, b, n - 1);
      assert a[..n] == a[..n - 1] + [a[n - 1]] && b[..n] == b[..n - 1] + [b[n - 1]];
      FilledUnlessLast(limits, splits, separator, a, n - 1);
      FilledUnlessLast(limits, splits, separator, b, n - 1);
    }
  }

  lemma SamePrefix(a: seq<Window>, b: seq<Window>, n: nat)
    requires n <= |a| && n <= |b| && a[..n] == b[..n]
    ensures n > 0 ==> a[n - 1] == b[n - 1]
  {
    assert n > 0 ==> a[..n][n - 1] == a[n - 1] && b[..n][n - 1] == b[n - 1];
  }

  lemma SameWindow(limits: Limits, splits: seq<string>, separator: string, a: seq<Window>, b: seq<Window>, k: nat)
    requires Windowed(splits, a) && Greedy(limits, splits, separator, a) && Covered(a) == |splits| && k < |a|
    requires Windowed(splits, b) && Greedy(limits, splits, separator, b) && Covered(b) == |splits| && k < |b|
    requires k > 0 ==> a[k - 1] == b[k - 1]
    ensures a[k] == b[k]
  {
    if k > 0 {
      assert Next(limits, splits, separator, a[k - 1], a[k]) && Next(limits, splits, separator, b[k - 1], b[k]);
      assert Follows(a[k - 1], a[k]) && Follows(b[k - 1], b[k]);
      SameStart(limits, splits, separator, a[k - 1], a[k], b[k]);
    }
    FilledUnlessLast(limits, splits, separator, a, k);
    FilledUnlessLast(limits, splits, separator, b, k);
    SameEnd(limits, splits, separator, if k > 0 then a[k - 1].end else 0, a[k], b[k]);
  }

  lemma FilledUnlessLast(limits: Limits, splits: seq<string>, separator: string, a: seq<Window>, k: nat)
    requires Windowed(splits, a) && Greedy(limits, splits, separator, a) && Covered(a) == |splits| && k < |a|
    ensures k == |a| - 1 ==> a[k].end == |splits|
    ensures k < |a| - 1 ==> Filled(limits, splits, separator, a[k])
  {
    assert k < |a| - 1 ==> Next(limits, splits, separator, a[k], a[k + 1]);
  }

  lemma {:induction false} SuffixNoLonger(separator: string, splits: seq<string>, s: nat, t: nat, end: nat)
    requires s <= t <= end <= |splits|
    ensures |Join(separator, splits[t..end])| <= |Join(separator, splits[s..end])|
    decreases t - s
  {
    if s < t {
      SuffixNoLonger(separator, splits, s + 1, t, end);
      JoinShrinks(separator, splits, s, end);
    }
  }

  lemma SameStart(limits: Limits, splits: seq<string>, separator: string, v: Window, w: Window, x: Window)
    requires InRange(v, |splits|) && InRange(w, |splits|) && InRange(x, |splits|)
    requires Next(limits, splits, separator, v, w) && Next(limits, splits, separator, v, x)
    ensures w.start == x.start
  {
    if w.start < x.start {
      SuffixNoLonger(separator, splits, w.start, x.start - 1, v.end);
    } else if x.start < w.start {
      SuffixNoLonger(separator, splits, x.start, w.start - 1, v.end);
    }
  }

  lemma SameEnd(limits: Limits, splits: seq<string>, separator: string, from: nat, w: Window, x: Window)
    requires InRange(w, |splits|) && InRange(x, |splits|) && w.start == x.start <= from && from < w.end && from < x.end
    requires Fitted(limits, splits, separator, from, w.start, w.end)
             && Fitted(limits, splits, separator, from, x.start, x.end)
    requires w.end == |splits| || Filled(limits, splits, separator, w)
    requires x.end == |splits| || Filled(limits, splits, separator, x)
    ensures w.end == x.end
  {
  }

  // ---------------------------------------------------------------- the merge as a function

  /** The chunks closed so far, and the first part of the window being filled. */
  datatype Merge = Merge(chunks: seq<string>, start: nat)

  function MergeNext(limits: Limits, splits: seq<string>, separator: string, m: Merge, i: nat): (m': Merge)
    requires m.start <= i < |splits|
    ensures m'.start <= i
  {
    if m.start < i && JoinLength(splits, separator, m.start, i + 1) > limits.size then
      Merge(m.chunks + [Join(separator, splits[m.start..i])], NextStart(splits, separator, m.start, i, limits.overlap))
    else m
  }

  function MergeUpto(limits: Limits, splits: seq<string>, separator: string, i: nat): (m: Merge)
    requires i <= |splits|
    ensures m.start <= i && (i > 0 ==> m.start < i)
  {
    if i == 0 then Merge([], 0)
    else MergeNext(limits, splits, separator, MergeUpto(limits, splits, separator, i - 1), i - 1)
  }

  function Merged(limits: Limits, splits: seq<string>, separator: string): seq<string>
  {
    var m := MergeUpto(limits, splits, separator, |splits|);
    if splits == [] then m.chunks else m.chunks + [Join(separator, splits[m.start..])]
  }

  /** No chunk is longer than this when no separator is longer than `width`: without overlap nothing is carried. */
  function Most(limits: Limits, width: nat): nat
  {
    if limits.overlap == 0 then limits.size else limits.size + limits.overlap + width
  }

  predicate NoneEmpty(parts: seq<string>)
  {
    forall p | p in parts :: p != ""
  }

  lemma JoinNotEmpty(separator: string, splits: seq<string>, start: nat, end: nat)
    requires NoneEmpty(splits) && start < end <= |splits|
    ensures JoinLength(splits, separator, start, end) > 0
  {
    JoinShrinks(separator, splits, start, end);
    assert splits[start] in splits;
  }

  lemma {:induction false} NextStartCarries(splits: seq<string>, separator: string, start: nat, end: nat, overlap: nat)
    requires start <= end <= |splits|
    ensures |Join(separator, splits[NextStart(splits, separator, start, end, overlap)..end])| <= overlap
    decreases end - start
  {
    if start == end {
      assert splits[end..end] == [];
    } else if |Join(separator, splits[start..end])| > overlap {
      NextStartCarries(splits, separator, start + 1, end, overlap);
    }
  }

  /** A part put behind what is carried over. */
  lemma CarriedThenPart(limits: Limits, splits: seq<string>, separator: string, start: nat, i: nat, width: nat)
    requires AllAtMost(splits, limits.size) && NoneEmpty(splits) && |separator| <= width && start < i < |splits|
    ensures var next := NextStart(splits, separator, start, i, limits.overlap);
            JoinLength(splits, separator, next, i + 1) <= Most(limits, width)
  {
    var next := NextStart(splits, separator, start, i, limits.overlap);
    NextStartCarries(splits, separator, start, i, limits.overlap);
    JoinGrows(separator, splits, next, i);
    assert splits[i] in splits;
    if next < i {
      JoinNotEmpty(separator, splits, next, i);
    }
  }

  lemma AtMostSnoc(texts: seq<string>, last: string, most: nat)
    requires AllAtMost(texts, most) && |last| <= most
    ensures AllAtMost(texts + [last], most)
  {
  }

  /** The closed chunks and the window up to part i are within the bound. */
  predicate MergeWithin(splits: seq<string>, separator: string, m: Merge, i: nat, most: nat)
    requires m.start <= i <= |splits|
  {
    AllAtMost(m.chunks, most) && JoinLength(splits, separator, m.start, i) <= most
  }

  lemma OnePart(splits: seq<string>, separator: string, i: nat)
    requires i < |splits|
    ensures JoinLength(splits, separator, i, i + 1) == |splits[i]|
  {
    assert splits[i..i + 1] == [splits[i]];
  }

  lemma MergeNextWithin(limits: Limits, splits: seq<string>, separator: string, m: Merge, i: nat, width: nat)
    requires AllAtMost(splits, limits.size) && NoneEmpty(splits) && |separator| <= width
    requires m.start <= i < |splits| && MergeWithin(splits, separator, m, i, Most(limits, width))
    ensures var m' := MergeNext(limits, splits, separator, m, i);
            MergeWithin(splits, separator, m', i + 1, Most(limits, width))
  {
    if m.start < i {
      AtMostSnoc(m.chunks, Join(separator, splits[m.start..i]), Most(limits, width));
      CarriedThenPart(limits, splits, separator, m.start, i, width);
    } else {
      OnePart(splits, separator, i);
      assert splits[i] in splits;
    }
  }

  lemma {:induction false} MergeAtMost(limits: Limits, splits: seq<string>, separator: string, i: nat, width: nat)
    requires AllAtMost(splits, limits.size) && NoneEmpty(splits) && |separator| <= width && i <= |splits|
    ensures MergeWithin(splits, separator, MergeUpto(limits, splits, separator, i), i, Most(limits, width))
  {
    if i == 0 {
      assert splits[0..0] == [];
    } else {
      MergeAtMost(limits, splits, separator, i - 1, width);
      MergeNextWithin(limits, splits, separator, MergeUpto(limits, splits, separator, i - 1), i - 1, width);
    }
  }

  lemma MergedAtMost(limits: Limits, splits: seq<string>, separator: string, width: nat)
    requires AllAtMost(splits, limits.size) && NoneEmpty(splits) && |separator| <= width
    ensures AllAtMost(Merged(limits, splits, separator), Most(limits, width))
  {
    MergeAtMost(limits, splits, separator, |splits|, width);
    if splits != [] {
      var m := MergeUpto(limits, splits, separator, |splits|);
      assert splits[m.start..|splits|] == splits[m.start..];
      AtMostSnoc(m.chunks, Join(separator, splits[m.start..]), Most(limits, width));
    }
  }

  // ---------------------------------------------------------------- the windows behind the chunks

  /** The closed windows and the one being filled. */
  ghost predicate AtPart(limits: Limits, splits: seq<string>, separator: string, m: Merge, windows: seq<Window>, i: nat)
  {
    && Merging(limits, splits, separator, m.chunks, windows, m.start, i)
    && Filling(limits, splits, separator, windows, m.start, i)
  }

  lemma {:induction false} NextStartIsCarried(splits: seq<string>, separator: string, start: nat, end: nat,
                                              overlap: nat)
    requires start <= end <= |splits|
    ensures Carried(splits, separator, start, end, NextStart(splits, separator, start, end, overlap), overlap)
    decreases end - start
  {
    if start == end {
      assert splits[end..end] == [];
    } else if |Join(separator, splits[start..end])| > overlap {
      NextStartIsCarried(splits, separator, start + 1, end, overlap);
    }
  }

  lemma WindowsNext(limits: Limits, splits: seq<string>, separator: string, m: Merge, windows: seq<Window>, i: nat,
                    m': Merge)
    returns (windows': seq<Window>)
    requires i < |splits| && m.start <= i && AtPart(limits, splits, separator, m, windows, i)
    requires m' == MergeNext(limits, splits, separator, m, i)
    ensures AtPart(limits, splits, separator, m', windows', i + 1)
  {
    if m.start < i && JoinLength(splits, separator, m.start, i + 1) > limits.size {
      NextStartIsCarried(splits, separator, m.start, i, limits.overlap);
      WindowFlushed(limits, splits, separator, m.chunks, windows, m.start, i,
                    NextStart(splits, separator, m.start, i, limits.overlap));
      windows' := windows + [Window(m.start, i)];
    } else {
      PartAdded(limits, splits, separator, m.chunks, windows, m.start, i);
      windows' := windows;
    }
  }

  lemma {:induction false} WindowsUpto(limits: Limits, splits: seq<string>, separator: string, i: nat)
    returns (windows: seq<Window>)
    requires i <= |splits|
    ensures AtPart(limits, splits, separator, MergeUpto(limits, splits, separator, i), windows, i)
  {
    if i == 0 {
      windows := [];
      NoWindows(limits, splits, separator);
    } else {
      var m, m' := MergeUpto(limits, splits, separator, i - 1), MergeUpto(limits, splits, separator, i);
      assert m' == MergeNext(limits, splits, separator, m, i - 1);
      var before := WindowsUpto(limits, splits, separator, i - 1);
      windows := WindowsNext(limits, splits, separator, m, before, i - 1, m');
    }
  }

  lemma NoWindows(limits: Limits, splits: seq<string>, separator: string)
    ensures AtPart(limits, splits, separator, Merge([], 0), [], 0)
  {
  }

  predicate Bounded(limits: Limits, separator: string, chunks: seq<string>, currentLen: nat)
  {
    var bound := limits.size + limits.overlap + |separator|;
    AllAtMost(chunks, bound) && currentLen <= bound
  }

  lemma BoundedNext(limits: Limits, splits: seq<string>, separator: string, m: Merge, i: nat)
    requires m.start <= i < |splits| && AllAtMost(splits, limits.size)
    requires Bounded(limits, separator, m.chunks, JoinLength(splits, separator, m.start, i))
    ensures var m' := MergeNext(limits, splits, separator, m, i);
            Bounded(limits, separator, m'.chunks, JoinLength(splits, separator, m'.start, i + 1))
  {
    var m' := MergeNext(limits, splits, separator, m, i);
    NextStartCarries(splits, separator, m.start, i, limits.overlap);
    JoinGrows(separator, splits, m.start, i);
    JoinGrows(separator, splits, m'.start, i);
    assert splits[i] in splits;
    AtMostSnoc(m.chunks, Join(separator, splits[m.start..i]), limits.size + limits.overlap + |separator|);
  }

  lemma {:induction false} BoundedUpto(limits: Limits, splits: seq<string>, separator: string, i: nat)
    requires i <= |splits| && AllAtMost(splits, limits.size)
    ensures var m := MergeUpto(limits, splits, separator, i);
            Bounded(limits, separator, m.chunks, JoinLength(splits, separator, m.start, i))
  {
    if i == 0 {
      assert splits[0..0] == [];
    } else {
      BoundedUpto(limits, splits, separator, i - 1);
      BoundedNext(limits, splits, separator, MergeUpto(limits, splits, separator, i - 1), i - 1);
    }
  }

  // ---------------------------------------------------------------- the loop that merges

  /** One part: close the window if the part does not fit, then add it. */
  method AddSplit(limits: Limits, splits: seq<string>, separator: string, chunks: seq<string>, start: nat,
                  currentLen: nat, i: nat)
    returns (chunks': seq<string>, start': nat, currentLen': nat)
    requires start <= i < |splits| && currentLen == JoinLength(splits, separator, start, i)
    ensures Merge(chunks', start') == MergeNext(limits, splits, separator, Merge(chunks, start), i)
    ensures start' <= i && currentLen' == JoinLength(splits, separator, start', i + 1)
  {
    chunks', start', currentLen' := chunks, start, currentLen;
    JoinGrows(separator, splits, start, i);
    var addedLen := |splits[i]| + if start < i then |separator| else 0;
    if start < i && currentLen + addedLen > limits.size {
      start', currentLen' := DropToOverlap(splits, separator, start, i, currentLen, limits.overlap);
      chunks' := chunks + [Join(separator, splits[start..i])];
      JoinGrows(separator, splits, start', i);
    }
    currentLen' := currentLen' + |splits[i]| + if start' < i then |separator| else 0;
  }

  method MergeSplits(limits: Limits, splits: seq<string>, separator: string)
    returns (chunks: seq<string>, ghost windows: seq<Window>)
    requires ValidLimits(limits)
    ensures Windowed(splits, windows) && AreJoins(splits, separator, windows, chunks)
    ensures OverlapsWithin(splits, separator, windows, limits.overlap) && Greedy(limits, splits, separator, windows)
    ensures Covered(windows) == |splits| && chunks == Merged(limits, splits, separator)
    ensures AllAtMost(splits, limits.size) ==> AllAtMost(chunks, limits.size + limits.overlap + |separator|)
  {
    var start;
    chunks, start := MergeParts(limits, splits, separator);
    windows := WindowsUpto(limits, splits, separator, |splits|);
    if AllAtMost(splits, limits.size) {
      BoundedUpto(limits, splits, separator, |splits|);
    }
    if start < |splits| {
      LastWindow(limits, splits, separator, chunks, windows, start);
      LastMerged(limits, splits, separator, chunks, start);
      chunks := chunks + [Join(separator, splits[start..|splits|])];
      windows := windows + [Window(start, |splits|)];
    }
  }

  /** The loop over the parts; the last window is still open. */
  method MergeParts(limits: Limits, splits: seq<string>, separator: string) returns (chunks: seq<string>, start: nat)
    ensures Merge(chunks, start) == MergeUpto(limits, splits, separator, |splits|)
  {
    chunks, start := [], 0;
    var currentLen: nat := 0;
    assert splits[0..0] == [];
    for i := 0 to |splits|
      invariant Merge(chunks, start) == MergeUpto(limits, splits, separator, i)
      invariant start <= i && currentLen == JoinLength(splits, separator, start, i)
    {
      chunks, start, currentLen := AddSplit(limits, splits, separator, chunks, start, currentLen, i);
    }
  }

  lemma LastMerged(limits: Limits, splits: seq<string>, separator: string, chunks: seq<string>, start: nat)
    requires start < |splits| && MergeUpto(limits, splits, separator, |splits|) == Merge(chunks, start)
    ensures Merged(limits, splits, separator) == chunks + [Join(separator, splits[start..|splits|])]
  {
    assert splits[start..|splits|] == splits[start..];
  }

  // ---------------------------------------------------------------- what is new in each chunk

  predicate EndsWith(text: string, suffix: string)
  {
    |suffix| <= |text| && text[|text| - |suffix|..] == suffix
  }

  /** Each chunk is some text carried over, at most `carry` characters, and then its own new text. */
  predicate Renews(chunks: seq<string>, news: seq<string>, carry: nat)
  {
    |news| == |chunks| && forall k | 0 <= k < |chunks| :: Renewed(chunks[k], news[k], carry)
  }

  predicate Renewed(chunk: string, own: string, carry: nat)
  {
    EndsWith(chunk, own) && |chunk| <= |own| + carry
  }

  lemma RenewsConcat(a: seq<string>, f: seq<string>, b: seq<string>, g: seq<string>, carry: nat)
    requires Renews(a, f, carry) && Renews(b, g, carry)
    ensures Renews(a + b, f + g, carry)
  {
  }

  lemma RenewsWeaker(chunks: seq<string>, news: seq<string>, carry: nat, more: nat)
    requires Renews(chunks, news, carry) && carry <= more
    ensures Renews(chunks, news, more)
  {
    forall k | 0 <= k < |chunks| ensures Renewed(chunks[k], news[k], more) {
      assert Renewed(chunks[k], news[k], carry);
    }
  }

  lemma EraseFlatConcat(a: seq<string>, b: seq<string>)
    ensures Erase(Flat(a + b)) == Erase(Flat(a)) + Erase(Flat(b))
  {
    FlatConcat(a, b);
    EraseConcat(Flat(a), Flat(b));
  }

  /** The new text of each window: its parts that no earlier window holds. */
  function FreshParts(splits: seq<string>, separator: string, windows: seq<Window>): seq<string>
    requires Windowed(splits, windows)
  {
    if windows == [] then []
    else
      var init, w := windows[..|windows| - 1], windows[|windows| - 1];
      assert init != [] ==> Follows(windows[|windows| - 2], w);
      FreshParts(splits, separator, init) + [Join(separator, splits[Covered(init)..w.end])]
  }

  lemma WindowRenews(splits: seq<string>, separator: string, w: Window, from: nat, overlap: nat)
    requires InRange(w, |splits|) && w.start <= from < w.end
    requires |Join(separator, splits[w.start..from])| <= overlap
    ensures Renewed(Join(separator, splits[w.start..w.end]), Join(separator, splits[from..w.end]),
                    overlap + |separator|)
  {
    if w.start < from {
      assert splits[w.start..w.end] == splits[w.start..from] + splits[from..w.end];
      JoinConcat(separator, splits[w.start..from], splits[from..w.end]);
    }
  }

  /** The last window's chunk ends with its own parts. */
  lemma LastRenews(splits: seq<string>, separator: string, windows: seq<Window>, chunks: seq<string>, overlap: nat)
    requires Windowed(splits, windows) && windows != []
    requires AreJoins(splits, separator, windows, chunks) && OverlapsWithin(splits, separator, windows, overlap)
    ensures var n := |windows| - 1;
      && Covered(windows[..n]) <= windows[n].end <= |splits|
      && Renewed(chunks[n], Join(separator, splits[Covered(windows[..n])..windows[n].end]), overlap + |separator|)
  {
    var n := |windows| - 1;
    assert InRange(windows[n], |splits|) && IsJoin(splits, separator, windows[n], chunks[n]);
    if n > 0 {
      assert Follows(windows[n - 1], windows[n]);
      assert SharedWithin(splits, separator, windows[n - 1], windows[n], overlap);
    }
    WindowRenews(splits, separator, windows[n], Covered(windows[..n]), overlap);
  }

  lemma {:induction false} FreshPartsRenew(splits: seq<string>, separator: string, windows: seq<Window>,
                                           chunks: seq<string>, overlap: nat)
    requires Windowed(splits, windows)
    requires AreJoins(splits, separator, windows, chunks) && OverlapsWithin(splits, separator, windows, overlap)
    ensures Renews(chunks, FreshParts(splits, separator, windows), overlap + |separator|)
  {
    if windows != [] {
      var n := |windows| - 1;
      var own := Join(separator, splits[Covered(windows[..n])..windows[n].end]);
      assert chunks == chunks[..n] + [chunks[n]];
      InitWindows(splits, separator, windows, chunks, overlap);
      FreshPartsRenew(splits, separator, windows[..n], chunks[..n], overlap);
      LastRenews(splits, separator, windows, chunks, overlap);
      RenewsConcat(chunks[..n], FreshParts(splits, separator, windows[..n]), [chunks[n]], [own], overlap + |separator|);
    }
  }

  lemma CoveredWithin(splits: seq<string>, windows: seq<Window>)
    requires Windowed(splits, windows)
    ensures Covered(windows) <= |splits|
    ensures windows != [] ==>
              Windowed(splits, windows[..|windows| - 1]) && Covered(windows[..|windows| - 1]) < Covered(windows)
  {
    if windows != [] {
      var n := |windows| - 1;
      assert InRange(windows[n], |splits|);
      assert n > 0 ==> Follows(windows[n - 1], windows[n]);
      var init := windows[..n];
      forall k | 0 < k < |init| ensures Follows(init[k - 1], init[k]) {
        assert Follows(windows[k - 1], windows[k]);
      }
    }
  }

  lemma EraseFlatSnoc(parts: seq<string>, last: string)
    ensures Erase(Flat(parts + [last])) == Erase(Flat(parts)) + Erase(last)
  {
    FlatSnoc(parts, last);
    EraseConcat(Flat(parts), last);
  }

  /** A window's new parts, joined, add to the parts before them what they hold. */
  lemma EraseOneWindow(splits: seq<string>, separator: string, from: nat, end: nat)
    requires Blank(separator) && from <= end <= |splits|
    ensures Erase(Flat(splits[..end])) == Erase(Flat(splits[..from])) + Erase(Join(separator, splits[from..end]))
  {
    EraseJoin(separator, splits[from..end]);
    EraseFlatConcat(splits[..from], splits[from..end]);
    assert splits[..end] == splits[..from] + splits[from..end];
  }

  /** The new texts of the windows are together all of the parts. */
  lemma {:induction false} FreshPartsCover(splits: seq<string>, separator: string, windows: seq<Window>)
    requires Blank(separator) && Windowed(splits, windows)
    ensures Covered(windows) <= |splits|
    ensures Erase(Flat(FreshParts(splits, separator, windows))) == Erase(Flat(splits[..Covered(windows)]))
  {
    CoveredWithin(splits, windows);
    if windows == [] {
      assert splits[..0] == [];
    } else {
      var init, w := windows[..|windows| - 1], windows[|windows| - 1];
      FreshPartsCover(splits, separator, init);
      EraseFlatSnoc(FreshParts(splits, separator, init), Join(separator, splits[Covered(init)..w.end]));
      EraseOneWindow(splits, separator, Covered(init), w.end);
    }
  }

  lemma InitWindows(splits: seq<string>, separator: string, windows: seq<Window>, chunks: seq<string>, overlap: nat)
    requires Windowed(splits, windows) && windows != []
    requires AreJoins(splits, separator, windows, chunks) && OverlapsWithin(splits, separator, windows, overlap)
    ensures var n := |windows| - 1;
      && Windowed(splits, windows[..n]) && AreJoins(splits, separator, windows[..n], chunks[..n])
      && OverlapsWithin(splits, separator, windows[..n], overlap)
  {
    var init := windows[..|windows| - 1];
    forall k | 0 < k < |init|
      ensures Follows(init[k - 1], init[k]) && SharedWithin(splits, separator, init[k - 1], init[k], overlap)
    {
      assert Follows(windows[k - 1], windows[k])
             && SharedWithin(splits, separator, windows[k - 1], windows[k], overlap);
    }
  }

  // ---------------------------------------------------------------- splitting

  function Chars(text: string): seq<string>
  {
    if text == "" then [] else Chars(text[..|text| - 1]) + [[text[|text| - 1]]]
  }

  lemma {:induction false} FlatChars(text: string)
    ensures Flat(Chars(text)) == text
  {
    if text != "" {
      var init := text[..|text| - 1];
      FlatChars(init);
      FlatSnoc(Chars(init), [text[|text| - 1]]);
    }
  }

  lemma {:induction false} CharsAreShort(text: string)
    ensures AllAtMost(Chars(text), 1)
  {
    if text != "" { CharsAreShort(text[..|text| - 1]); }
  }

  function NonEmpty(parts: seq<string>): seq<string>
  {
    if parts == [] then []
    else
      var init, last := NonEmpty(parts[..|parts| - 1]), parts[|parts| - 1];
      if last == "" then init else init + [last]
  }

  lemma {:induction false} FlatNonEmpty(parts: seq<string>)
    ensures Flat(NonEmpty(parts)) == Flat(parts)
  {
    if parts != [] {
      var init, last := parts[..|parts| - 1], parts[|parts| - 1];
      FlatNonEmpty(init);
      FlatSnoc(NonEmpty(init), last);
    }
  }

  /** text.split without the empty pieces, or the characters of the text. */
  function Parts(text: string, separator: string): seq<string>
  {
    if separator == "" then Chars(text) else NonEmpty(Split(text, separator))
  }

  lemma PartsLoseNothing(text: string, separator: string)
    requires Blank(separator)
    ensures Erase(Flat(Parts(text, separator))) == Erase(text)
    ensures separator == "" ==> AllAtMost(Parts(text, separator), 1)
  {
    if separator == "" {
      FlatChars(text);
      CharsAreShort(text);
    } else {
      FlatNonEmpty(Split(text, separator));
      JoinSplit(text, separator);
      EraseJoin(separator, Split(text, separator));
    }
  }

  /** The separators still to try: blank, short, and ending with the empty one. */
  predicate Separators(separators: seq<string>)
  {
    && separators != [] && separators[|separators| - 1] == ""
    && forall i | 0 <= i < |separators| :: Blank(separators[i]) && |separators[i]| <= 2
  }

  /** The first separator that occurs in the text, the empty one always doing so. */
  function Chosen(text: string, separators: seq<string>): (i: nat)
    requires Separators(separators)
    ensures i < |separators| && (separators[i + 1..] != [] ==> Separators(separators[i + 1..]))
    ensures separators[i + 1..] == [] ==> separators[i] == ""
  {
    if separators[0] == "" || Contains(text, separators[0]) then 0 else 1 + Chosen(text, separators[1..])
  }

  lemma {:induction false} ChosenIs(text: string, separators: seq<string>, i: nat)
    requires Separators(separators) && i < |separators| && (separators[i] == "" || Contains(text, separators[i]))
    requires forall j | 0 <= j < i :: separators[j] != "" && !Contains(text, separators[j])
    ensures Chosen(text, separators) == i
  {
    if i > 0 { ChosenIs(text, separators[1..], i - 1); }
  }

  /** What the loop over the parts has emitted, and the small parts that wait to be merged. */
  datatype Run = Run(result: seq<string>, good: seq<string>)

  function AfterRun(limits: Limits, r: Run, separator: string): seq<string>
  {
    if r.good == [] then r.result else r.result + Merged(limits, r.good, separator)
  }

  function RunNext(limits: Limits, r: Run, part: string, separator: string, remaining: seq<string>): Run
    requires remaining != [] ==> Separators(remaining)
    decreases |remaining|, 0, 2
  {
    if |part| > limits.size then Run(AfterRun(limits, r, separator) + Oversized(limits, part, remaining), [])
    else Run(r.result, r.good + [part])
  }

  function SplitParts(limits: Limits, parts: seq<string>, n: nat, separator: string, remaining: seq<string>): Run
    requires n <= |parts| && (remaining != [] ==> Separators(remaining))
    decreases |remaining|, 1, n
  {
    if n == 0 then Run([], [])
    else RunNext(limits, SplitParts(limits, parts, n - 1, separator, remaining), parts[n - 1], separator, remaining)
  }

  function Oversized(limits: Limits, part: string, remaining: seq<string>): seq<string>
    requires remaining != [] ==> Separators(remaining)
    decreases |remaining|, 0, 1
  {
    if remaining == [] then [part] else SplitText(limits, part, remaining)
  }

  function SplitText(limits: Limits, text: string, separators: seq<string>): seq<string>
    requires Separators(separators)
    decreases |separators|, 0, 0
  {
    var i := Chosen(text, separators);
    var parts := Parts(text, separators[i]);
    AfterRun(limits, SplitParts(limits, parts, |parts|, separators[i], separators[i + 1..]), separators[i])
  }

  /** The chunks of a text. */
  function ChunksOf(limits: Limits, text: string): seq<string>
  {
    if Strip(text) == "" then [] else SplitText(limits, text, SEPARATORS)
  }

  lemma {:induction false} SmallRun(limits: Limits, parts: seq<string>, n: nat, separator: string,
                                    remaining: seq<string>)
    requires AllAtMost(parts, limits.size) && n <= |parts| && (remaining != [] ==> Separators(remaining))
    ensures SplitParts(limits, parts, n, separator, remaining) == Run([], parts[..n])
  {
    if n > 0 {
      SmallRun(limits, parts, n - 1, separator, remaining);
      assert parts[n - 1] in parts && parts[..n] == parts[..n - 1] + [parts[n - 1]];
    }
  }

  /** When no part is too long, splitting is merging. */
  lemma SmallPartsMerged(limits: Limits, text: string, separators: seq<string>)
    requires Separators(separators) && AllAtMost(Parts(text, separators[Chosen(text, separators)]), limits.size)
    ensures var separator := separators[Chosen(text, separators)];
            SplitText(limits, text, separators) == Merged(limits, Parts(text, separator), separator)
  {
    var i := Chosen(text, separators);
    var parts := Parts(text, separators[i]);
    SmallRun(limits, parts, |parts|, separators[i], separators[i + 1..]);
    assert parts[..|parts|] == parts;
    SplitTextIs(limits, text, separators, separators[i], separators[i + 1..], Run([], parts));
    AfterSmallRun(limits, parts, separators[i]);
  }

  lemma AfterSmallRun(limits: Limits, parts: seq<string>, separator: string)
    ensures AfterRun(limits, Run([], parts), separator) == Merged(limits, parts, separator)
  {
    var merged := Merged(limits, parts, separator);
    assert [] + merged == merged;
  }

  // ---------------------------------------------------------------- what splitting yields

  /** Neighbouring parts that fit the size each, or one part that does not. */
  datatype Block = Small(parts: seq<string>) | Big(part: string)

  function PartsIn(blocks: seq<Block>): seq<string>
  {
    if blocks == [] then []
    else
      var last := blocks[|blocks| - 1];
      PartsIn(blocks[..|blocks| - 1]) + if last.Small? then last.parts else [last.part]
  }

  /** Small parts are merged; a big one is split at the separators that remain, or kept where none does. */
  function SplitEach(limits: Limits, blocks: seq<Block>, separator: string, remaining: seq<string>): seq<string>
    requires remaining != [] ==> Separators(remaining)
  {
    if blocks == [] then []
    else
      var last := blocks[|blocks| - 1];
      SplitEach(limits, blocks[..|blocks| - 1], separator, remaining)
      + match last
        case Small(parts) => Merged(limits, parts, separator)
        case Big(part) => if remaining == [] then [part] else SplitText(limits, part, remaining)
  }

  /** Small parts are taken together as far as they are neighbours. */
  ghost predicate Blocks(limits: Limits, blocks: seq<Block>)
  {
    && (forall i | 0 <= i < |blocks| :: IsBlock(limits, blocks[i]))
    && forall i, j | 0 <= i < j < |blocks| && j == i + 1 :: blocks[i].Small? ==> blocks[j].Big?
  }

  predicate IsBlock(limits: Limits, block: Block)
  {
    match block
    case Small(parts) => parts != [] && AllAtMost(parts, limits.size)
    case Big(part) => |part| > limits.size
  }

  lemma BlocksSnoc(limits: Limits, blocks: seq<Block>, last: Block)
    requires Blocks(limits, blocks) && IsBlock(limits, last)
    requires blocks != [] && blocks[|blocks| - 1].Small? ==> last.Big?
    ensures Blocks(limits, blocks + [last])
  {
  }

  lemma EachSnoc(limits: Limits, blocks: seq<Block>, last: Block, separator: string, remaining: seq<string>)
    requires remaining != [] ==> Separators(remaining)
    ensures PartsIn(blocks + [last]) == PartsIn(blocks) + if last.Small? then last.parts else [last.part]
    ensures SplitEach(limits, blocks + [last], separator, remaining)
            == SplitEach(limits, blocks, separator, remaining)
               + if last.Small? then Merged(limits, last.parts, separator) else Oversized(limits, last.part, remaining)
  {
    assert (blocks + [last])[..|blocks|] == blocks;
  }

  /** Closed blocks, the last of them big, and small parts that wait. */
  ghost predicate Waiting(limits: Limits, blocks: seq<Block>, r: Run, separator: string, remaining: seq<string>)
    requires remaining != [] ==> Separators(remaining)
  {
    && Blocks(limits, blocks) && r.result == SplitEach(limits, blocks, separator, remaining)
    && AllAtMost(r.good, limits.size) && (blocks != [] ==> blocks[|blocks| - 1].Big?)
  }

  lemma AddSmall(limits: Limits, blocks: seq<Block>, good: seq<string>, separator: string, remaining: seq<string>)
    requires (remaining != [] ==> Separators(remaining)) && Blocks(limits, blocks)
    requires good != [] && AllAtMost(good, limits.size) && (blocks != [] ==> blocks[|blocks| - 1].Big?)
    ensures Blocks(limits, blocks + [Small(good)]) && PartsIn(blocks + [Small(good)]) == PartsIn(blocks) + good
    ensures SplitEach(limits, blocks + [Small(good)], separator, remaining)
            == SplitEach(limits, blocks, separator, remaining) + Merged(limits, good, separator)
  {
    BlocksSnoc(limits, blocks, Small(good));
    EachSnoc(limits, blocks, Small(good), separator, remaining);
  }

  /** The waiting parts become a block of their own. */
  lemma CloseGood(limits: Limits, blocks: seq<Block>, r: Run, separator: string, remaining: seq<string>)
    returns (closed: seq<Block>)
    requires (remaining != [] ==> Separators(remaining)) && Waiting(limits, blocks, r, separator, remaining)
    ensures Blocks(limits, closed) && PartsIn(closed) == PartsIn(blocks) + r.good
    ensures AfterRun(limits, r, separator) == SplitEach(limits, closed, separator, remaining)
  {
    if r.good == [] {
      closed := blocks;
      assert PartsIn(blocks) + [] == PartsIn(blocks);
    } else {
      AddSmall(limits, blocks, r.good, separator, remaining);
      closed := blocks + [Small(r.good)];
    }
  }

  lemma AddBig(limits: Limits, closed: seq<Block>, part: string, separator: string, remaining: seq<string>)
    requires (remaining != [] ==> Separators(remaining)) && Blocks(limits, closed) && |part| > limits.size
    ensures Waiting(limits, closed + [Big(part)],
                    Run(SplitEach(limits, closed, separator, remaining) + Oversized(limits, part, remaining), []),
                    separator, remaining)
    ensures PartsIn(closed + [Big(part)]) + [] == PartsIn(closed) + [part]
  {
    BlocksSnoc(limits, closed, Big(part));
    EachSnoc(limits, closed, Big(part), separator, remaining);
  }

  lemma {:induction false} BlocksSoFar(limits: Limits, parts: seq<string>, n: nat, separator: string,
                                          remaining: seq<string>)
    returns (blocks: seq<Block>)
    requires n <= |parts| && (remaining != [] ==> Separators(remaining))
    ensures var r := SplitParts(limits, parts, n, separator, remaining);
      Waiting(limits, blocks, r, separator, remaining) && PartsIn(blocks) + r.good == parts[..n]
  {
    if n == 0 {
      blocks := [];
    } else {
      assert parts[..n] == parts[..n - 1] + [parts[n - 1]];
      blocks := BlocksSoFar(limits, parts, n - 1, separator, remaining);
      blocks := BlocksNext(limits, blocks, SplitParts(limits, parts, n - 1, separator, remaining), parts[n - 1],
                           separator, remaining);
    }
  }

  lemma BlocksNext(limits: Limits, blocks: seq<Block>, r: Run, part: string, separator: string, remaining: seq<string>)
    returns (blocks': seq<Block>)
    requires (remaining != [] ==> Separators(remaining)) && Waiting(limits, blocks, r, separator, remaining)
    ensures var r' := RunNext(limits, r, part, separator, remaining);
      && Waiting(limits, blocks', r', separator, remaining)
      && PartsIn(blocks') + r'.good == PartsIn(blocks) + r.good + [part]
  {
    if |part| > limits.size {
      var closed := CloseGood(limits, blocks, r, separator, remaining);
      AddBig(limits, closed, part, separator, remaining);
      blocks' := closed + [Big(part)];
    } else {
      Regroup3(PartsIn(blocks), r.good, [part]);
      blocks' := blocks;
    }
  }

  lemma Regroup3(a: seq<string>, b: seq<string>, c: seq<string>)
    ensures a + (b + c) == (a + b) + c
  {
  }

  /**
   * What becomes of a text, said of its parts: the parts at the chosen separator, in order, where
   * neighbours that fit are merged and each part that does not is split at the separators after it.
   */
  lemma SplitByBlocks(limits: Limits, text: string, separators: seq<string>) returns (blocks: seq<Block>)
    requires Separators(separators)
    ensures var i := Chosen(text, separators);
      && Blocks(limits, blocks) && PartsIn(blocks) == Parts(text, separators[i])
      && SplitText(limits, text, separators) == SplitEach(limits, blocks, separators[i], separators[i + 1..])
  {
    var i := Chosen(text, separators);
    blocks := BlocksOfParts(limits, text, separators, separators[i], separators[i + 1..]);
  }

  lemma BlocksOfParts(limits: Limits, text: string, separators: seq<string>, separator: string, remaining: seq<string>)
    returns (blocks: seq<Block>)
    requires Separators(separators) && (remaining != [] ==> Separators(remaining))
    requires var i := Chosen(text, separators); separator == separators[i] && remaining == separators[i + 1..]
    ensures Blocks(limits, blocks) && PartsIn(blocks) == Parts(text, separator)
    ensures SplitText(limits, text, separators) == SplitEach(limits, blocks, separator, remaining)
  {
    var parts := Parts(text, separator);
    blocks := AllBlocks(limits, parts, separator, remaining);
    SplitTextIs(limits, text, separators, separator, remaining,
                SplitParts(limits, parts, |parts|, separator, remaining));
  }

  lemma AllBlocks(limits: Limits, parts: seq<string>, separator: string, remaining: seq<string>)
    returns (blocks: seq<Block>)
    requires remaining != [] ==> Separators(remaining)
    ensures Blocks(limits, blocks) && PartsIn(blocks) == parts
    ensures AfterRun(limits, SplitParts(limits, parts, |parts|, separator, remaining), separator)
            == SplitEach(limits, blocks, separator, remaining)
  {
    var r := SplitParts(limits, parts, |parts|, separator, remaining);
    var waiting := BlocksSoFar(limits, parts, |parts|, separator, remaining);
    assert parts[..|parts|] == parts;
    blocks := CloseGood(limits, waiting, r, separator, remaining);
  }

  predicate Narrow(separators: seq<string>, width: nat)
  {
    forall i | 0 <= i < |separators| :: |separators[i]| <= width
  }

  lemma {:induction false} NonEmptyParts(parts: seq<string>)
    ensures NoneEmpty(NonEmpty(parts))
  {
    if parts != [] { NonEmptyParts(parts[..|parts| - 1]); }
  }

  lemma {:induction false} NonEmptyChars(text: string)
    ensures NoneEmpty(Chars(text))
  {
    if text != "" { NonEmptyChars(text[..|text| - 1]); }
  }

  lemma PartsNotEmpty(text: string, separator: string)
    ensures NoneEmpty(Parts(text, separator))
    ensures separator == "" ==> AllAtMost(Parts(text, separator), 1)
  {
    if separator == "" {
      NonEmptyChars(text);
      CharsAreShort(text);
    } else {
      NonEmptyParts(Split(text, separator));
    }
  }

  predicate RunAtMost(limits: Limits, r: Run, most: nat)
  {
    AllAtMost(r.result, most) && AllAtMost(r.good, limits.size) && NoneEmpty(r.good)
  }

  lemma AtMostConcat(a: seq<string>, b: seq<string>, most: nat)
    requires AllAtMost(a, most) && AllAtMost(b, most)
    ensures AllAtMost(a + b, most)
  {
  }

  lemma AfterRunAtMost(limits: Limits, r: Run, separator: string, width: nat)
    requires RunAtMost(limits, r, Most(limits, width)) && |separator| <= width
    ensures AllAtMost(AfterRun(limits, r, separator), Most(limits, width))
  {
    MergedAtMost(limits, r.good, separator, width);
    AtMostConcat(r.result, Merged(limits, r.good, separator), Most(limits, width));
  }

  lemma {:induction false} PartsAtMost(limits: Limits, parts: seq<string>, n: nat, separator: string,
                                       remaining: seq<string>, width: nat)
    requires ValidLimits(limits) && n <= |parts| && NoneEmpty(parts) && |separator| <= width
    requires if remaining == [] then AllAtMost(parts, 1) else Separators(remaining) && Narrow(remaining, width)
    ensures RunAtMost(limits, SplitParts(limits, parts, n, separator, remaining), Most(limits, width))
    decreases |remaining|, 1, n
  {
    if n > 0 {
      var r, part := SplitParts(limits, parts, n - 1, separator, remaining), parts[n - 1];
      assert part in parts;
      PartsAtMost(limits, parts, n - 1, separator, remaining, width);
      if |part| > limits.size {
        AfterRunAtMost(limits, r, separator, width);
        TextAtMost(limits, part, remaining, width);
        AtMostConcat(AfterRun(limits, r, separator), Oversized(limits, part, remaining), Most(limits, width));
      }
    }
  }

  lemma NarrowAfter(separators: seq<string>, i: nat, width: nat)
    requires Narrow(separators, width) && i < |separators|
    ensures |separators[i]| <= width && Narrow(separators[i + 1..], width)
  {
  }

  /** However deep the recursion, no chunk exceeds the size by more than the overlap and one separator. */
  lemma {:induction false} TextAtMost(limits: Limits, text: string, separators: seq<string>, width: nat)
    requires ValidLimits(limits) && Separators(separators) && Narrow(separators, width)
    ensures AllAtMost(SplitText(limits, text, separators), Most(limits, width))
    decreases |separators|, 0, 0
  {
    var i := Chosen(text, separators);
    var parts, remaining := Parts(text, separators[i]), separators[i + 1..];
    NarrowAfter(separators, i, width);
    PartsNotEmpty(text, separators[i]);
    PartsAtMost(limits, parts, |parts|, separators[i], remaining, width);
    var r := SplitParts(limits, parts, |parts|, separators[i], remaining);
    AfterRunAtMost(limits, r, separators[i], width);
    SplitTextIs(limits, text, separators, separators[i], remaining, r);
  }

  /** A separator that does not occur might as well not be there. */
  lemma PassedOver(limits: Limits, text: string, separators: seq<string>)
    requires Separators(separators) && Separators(separators[1..])
    requires separators[0] != "" && !Contains(text, separators[0])
    ensures SplitText(limits, text, separators) == SplitText(limits, text, separators[1..])
  {
    var rest := separators[1..];
    var i, j := Chosen(text, separators), Chosen(text, rest);
    assert i == 1 + j && separators[i] == rest[j] && separators[i + 1..] == rest[j + 1..];
  }

  /** A text without blank lines never uses the longest separator. */
  lemma ParagraphAtMost(limits: Limits, text: string)
    requires ValidLimits(limits) && !Contains(text, SEPARATORS[0])
    ensures AllAtMost(ChunksOf(limits, text), Most(limits, 1))
  {
    assert SEPARATORS[1..] == ["\n", " ", ""];
    PassedOver(limits, text, SEPARATORS);
    TextAtMost(limits, text, SEPARATORS[1..], 1);
  }

  /** The first separator that occurs in the text, the empty one always doing so, and those after it. */
  method ChooseSeparator(text: string, separators: seq<string>) returns (separator: string, remaining: seq<string>)
    requires Separators(separators)
    ensures Blank(separator) && |separator| <= 2 && |remaining| < |separators|
    ensures remaining != [] ==> Separators(remaining)
    ensures remaining == [] ==> separator == ""
    ensures var i := |separators| - 1 - |remaining|;
      && separator == separators[i] && remaining == separators[i + 1..]
      && (separator == "" || Contains(text, separator))
      && forall j | 0 <= j < i :: separators[j] != "" && !Contains(text, separators[j])
  {
    separator, remaining := separators[|separators| - 1], [];
    for i := 0 to |separators|
      invariant separator == "" && remaining == []
      invariant forall j | 0 <= j < i :: separators[j] != "" && !Contains(text, separators[j])
    {
      if separators[i] == "" || Contains(text, separators[i]) {
        return separators[i], separators[i + 1..];
      }
    }
  }

  /** Chunks within the bound, each with its own new text at its end. */
  predicate Chunked(limits: Limits, chunks: seq<string>, news: seq<string>)
  {
    AllAtMost(chunks, limits.size + limits.overlap + 2) && Renews(chunks, news, limits.overlap + 2)
  }

  lemma ChunkedConcat(limits: Limits, a: seq<string>, f: seq<string>, b: seq<string>, g: seq<string>)
    requires Chunked(limits, a, f) && Chunked(limits, b, g)
    ensures Chunked(limits, a + b, f + g)
    ensures Erase(Flat(f + g)) == Erase(Flat(f)) + Erase(Flat(g))
  {
    RenewsConcat(a, f, b, g, limits.overlap + 2);
    EraseFlatConcat(f, g);
  }

  lemma EraseFlatTake(parts: seq<string>, i: nat)
    requires i < |parts|
    ensures Erase(Flat(parts[..i + 1])) == Erase(Flat(parts[..i])) + Erase(parts[i])
  {
    assert parts[..i + 1] == parts[..i] + [parts[i]];
    EraseFlatSnoc(parts[..i], parts[i]);
  }

  /** The new texts emitted and the small parts waiting are what the first i parts hold. */
  ghost predicate Accounted(parts: seq<string>, i: nat, news: seq<string>, good: seq<string>)
    requires i <= |parts|
  {
    Erase(Flat(news)) + Erase(Flat(good)) == Erase(Flat(parts[..i]))
  }

  lemma AccountedGood(parts: seq<string>, i: nat, news: seq<string>, good: seq<string>)
    requires i < |parts| && Accounted(parts, i, news, good)
    ensures Accounted(parts, i + 1, news, good + [parts[i]])
  {
    EraseFlatTake(parts, i);
    EraseFlatSnoc(good, parts[i]);
    Regrouped(Erase(Flat(news)), Erase(Flat(good)), Erase(parts[i]));
  }

  lemma Regrouped(a: string, b: string, c: string)
    ensures a + (b + c) == (a + b) + c
  {
  }

  lemma AccountedBig(parts: seq<string>, i: nat, news: seq<string>, good: seq<string>, news': seq<string>)
    requires i < |parts| && Accounted(parts, i, news, good)
    requires Erase(Flat(news')) == Erase(Flat(news)) + Erase(Flat(good)) + Erase(parts[i])
    ensures Accounted(parts, i + 1, news', [])
  {
    EraseFlatTake(parts, i);
  }

  lemma AccountedAll(parts: seq<string>, news: seq<string>, good: seq<string>)
    requires Accounted(parts, |parts|, news, good)
    ensures Erase(Flat(news)) + Erase(Flat(good)) == Erase(Flat(parts))
  {
    assert parts[..|parts|] == parts;
  }

  /** Merging a run of small parts. */
  method Flush(limits: Limits, good: seq<string>, separator: string)
    returns (chunks: seq<string>, ghost news: seq<string>)
    requires ValidLimits(limits) && Blank(separator) && |separator| <= 2 && AllAtMost(good, limits.size)
    ensures Chunked(limits, chunks, news) && AllAtMost(chunks, limits.size + limits.overlap + 2)
    ensures Erase(Flat(news)) == Erase(Flat(good)) && chunks == Merged(limits, good, separator)
  {
    ghost var windows;
    chunks, windows := MergeSplits(limits, good, separator);
    news := FreshParts(good, separator, windows);
    FreshPartsRenew(good, separator, windows, chunks, limits.overlap);
    FreshPartsCover(good, separator, windows);
    RenewsWeaker(chunks, news, limits.overlap + |separator|, limits.overlap + 2);
    assert good[..|good|] == good;
  }

  /**
   * No text is lost: the new texts of the chunks, in order, are the input up to separators; and
   * no chunk exceeds the size by more than what is carried over in front of a full-size part.
   */
  method RecursiveSplit(limits: Limits, text: string, separators: seq<string>)
    returns (result: seq<string>, ghost news: seq<string>)
    requires ValidLimits(limits) && Separators(separators)
    ensures AllAtMost(result, limits.size + limits.overlap + 2)
    ensures Chunked(limits, result, news)
    ensures Erase(Flat(news)) == Erase(text) && result == SplitText(limits, text, separators)
    decreases |separators|, 0
  {
    var separator, remaining := ChooseSeparator(text, separators);
    ChosenIs(text, separators, |separators| - 1 - |remaining|);
    var parts := Parts(text, separator);
    PartsLoseNothing(text, separator);
    var good;
    result, news, good := AddParts(limits, parts, separator, remaining);
    AccountedAll(parts, news, good);
    SplitTextIs(limits, text, separators, separator, remaining, Run(result, good));
    result, news, good := AddFlushed(limits, result, news, good, separator);
  }

  lemma SplitTextIs(limits: Limits, text: string, separators: seq<string>, separator: string, remaining: seq<string>,
                    r: Run)
    requires Separators(separators) && (remaining != [] ==> Separators(remaining))
    requires var i := Chosen(text, separators); separator == separators[i] && remaining == separators[i + 1..]
    requires var parts := Parts(text, separator); r == SplitParts(limits, parts, |parts|, separator, remaining)
    ensures SplitText(limits, text, separators) == AfterRun(limits, r, separator)
  {
  }

  method AddParts(limits: Limits, parts: seq<string>, separator: string, remaining: seq<string>)
    returns (result: seq<string>, ghost news: seq<string>, good: seq<string>)
    requires ValidLimits(limits) && Blank(separator) && |separator| <= 2
    requires if remaining == [] then AllAtMost(parts, 1) else Separators(remaining)
    ensures Chunked(limits, result, news) && AllAtMost(good, limits.size) && Accounted(parts, |parts|, news, good)
    ensures Run(result, good) == SplitParts(limits, parts, |parts|, separator, remaining)
    decreases |remaining|, 3
  {
    result, news, good := [], [], [];
    for i := 0 to |parts|
      invariant Chunked(limits, result, news) && AllAtMost(good, limits.size)
      invariant Accounted(parts, i, news, good)
      invariant SplitParts(limits, parts, i, separator, remaining) == Run(result, good)
    {
      assert parts[i] in parts;
      result, news, good := AddPart(limits, parts, i, result, news, good, separator, remaining);
    }
  }

  /** One part: a small one waits to be merged, a long one is split behind what waited. */
  method AddPart(limits: Limits, parts: seq<string>, i: nat, result: seq<string>, ghost news: seq<string>,
                 good: seq<string>, separator: string, remaining: seq<string>)
    returns (result': seq<string>, ghost news': seq<string>, good': seq<string>)
    requires ValidLimits(limits) && Blank(separator) && |separator| <= 2 && AllAtMost(good, limits.size)
    requires i < |parts| && (if remaining == [] then |parts[i]| <= 1 else Separators(remaining))
    requires Chunked(limits, result, news) && Accounted(parts, i, news, good)
    ensures Chunked(limits, result', news') && AllAtMost(good', limits.size) && Accounted(parts, i + 1, news', good')
    ensures Run(result', good') == RunNext(limits, Run(result, good), parts[i], separator, remaining)
    decreases |remaining|, 2
  {
    result', news', good' := result, news, good;
    if |parts[i]| > limits.size {
      result', news', good' := AddFlushed(limits, result, news, good, separator);
      result', news' := AddOversized(limits, result', news', parts[i], remaining);
      AccountedBig(parts, i, news, good, news');
    } else {
      AccountedGood(parts, i, news, good);
      good' := good + [parts[i]];
    }
  }

  /** A part that is still too long is split by the separators after the one that made it. */
  method AddOversized(limits: Limits, result: seq<string>, ghost news: seq<string>, part: string,
                      remaining: seq<string>)
    returns (result': seq<string>, ghost news': seq<string>)
    requires ValidLimits(limits) && (|part| > 1 ==> Separators(remaining)) && |part| > limits.size
    requires Chunked(limits, result, news)
    ensures Chunked(limits, result', news')
    ensures Erase(Flat(news')) == Erase(Flat(news)) + Erase(part)
    ensures result' == result + Oversized(limits, part, remaining)
    decreases |remaining|, 1
  {
    var inner;
    ghost var own;
    if remaining != [] {
      inner, own := RecursiveSplit(limits, part, remaining);
    } else {
      assert false;  // a single character is never too long, so no part is emitted whole
    }
    ChunkedConcat(limits, result, news, inner, own);
    result', news' := result + inner, news + own;
  }

  method AddFlushed(limits: Limits, result: seq<string>, ghost news: seq<string>, good: seq<string>, separator: string)
    returns (result': seq<string>, ghost news': seq<string>, rest: seq<string>)
    requires ValidLimits(limits) && Blank(separator) && |separator| <= 2 && AllAtMost(good, limits.size)
    requires Chunked(limits, result, news)
    ensures Chunked(limits, result', news')
    ensures rest == [] && Erase(Flat(news')) == Erase(Flat(news)) + Erase(Flat(good))
    ensures result' == AfterRun(limits, Run(result, good), separator)
  {
    result', news', rest := result, news, [];
    if good != [] {
      var chunks;
      ghost var own;
      chunks, own := Flush(limits, good, separator);
      ChunkedConcat(limits, result, news, chunks, own);
      result', news' := result + chunks, news + own;
    }
  }

  method ChunkText(limits: Limits, text: string) returns (chunks: seq<string>, ghost news: seq<string>)
    requires ValidLimits(limits)
    ensures AllAtMost(chunks, limits.size + limits.overlap + 2) && (Strip(text) == "" ==> chunks == [])
    ensures Chunked(limits, chunks, news)
    ensures if Strip(text) == "" then chunks == [] else Erase(Flat(news)) == Erase(text)
    ensures chunks == ChunksOf(limits, text)
  {
    chunks, news := [], [];
    if Strip(text) != "" {
      chunks, news := RecursiveSplit(limits, text, SEPARATORS);
    }
  }
}

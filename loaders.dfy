/**
 * The helpers of external/__init__.py around the external loaders: rounding
 * file sizes up to whole progress ticks, the total size of a copy, the
 * throttled index stream `deferred_count`, the None-collapsing
 * `ExternalLoader.generate` and the global `Sudo` flag bracket.
 */
module Loaders {
  import opened Options
  import opened Arith

  /** `getSize`: a file's size rounded up to a whole number of ticks. */
  function GetSize(size: nat, bytesPerTick: nat): (r: nat)
    requires bytesPerTick > 0
    ensures r % bytesPerTick == 0
    ensures size <= r < size + bytesPerTick
  {
    var rest := size % bytesPerTick;
    RoundUp(size, bytesPerTick);
    if rest != 0 then size + (bytesPerTick - rest) else size
  }

  lemma RoundUp(size: nat, b: nat)
    requires b > 0
    ensures size % b != 0 ==> (size + (b - size % b)) % b == 0
  {
    var q, rest := size / b, size % b;
    assert size == q * b + rest;
    if rest != 0 {
      assert size + (b - rest) == (q + 1) * b + 0;
      DivModUnique(size + (b - rest), b, q + 1, 0);
    }
  }

  /** No multiple of the tick at least as large as the file is smaller than `getSize`. */
  lemma GetSizeIsLeast(size: nat, bytesPerTick: nat, m: nat)
    requires bytesPerTick > 0
    requires m % bytesPerTick == 0 && size <= m
    ensures GetSize(size, bytesPerTick) <= m
  {
    var r, b := GetSize(size, bytesPerTick), bytesPerTick;
    var k, j := r / b, m / b;
    assert r == k * b && m == j * b;
    assert r < (j + 1) * b by {
      assert (j + 1) * b == j * b + b;
    }
    assert (j + 1 - k) * b == (j + 1) * b - k * b;
    MulSign(j + 1 - k, b);
    assert (k - j) * b == k * b - j * b;
    MulSign(k - j, b);
  }

  /**
   * What a path names: a file of some size, or a directory with the sizes of
   * the files directly in it and its sub-directories.
   */
  datatype Node = File(size: nat) | Dir(files: seq<nat>, dirs: seq<Node>)

  /** The sum of `getSize` over the files of a tree. */
  function TreeSize(n: Node, bytesPerTick: nat): nat
    requires bytesPerTick > 0
    decreases n, 1
  {
    match n
    case File(s) => GetSize(s, bytesPerTick)
    case Dir(fs, ds) => FilesSize(fs, bytesPerTick) + ForestSize(ds, bytesPerTick)
  }

  function ForestSize(ds: seq<Node>, bytesPerTick: nat): nat
    requires bytesPerTick > 0
    decreases ds, 0
  {
    if ds == [] then 0 else TreeSize(ds[0], bytesPerTick) + ForestSize(ds[1..], bytesPerTick)
  }

  function FilesSize(fs: seq<nat>, bytesPerTick: nat): nat
    requires bytesPerTick > 0
  {
    if fs == [] then 0 else GetSize(fs[0], bytesPerTick) + FilesSize(fs[1..], bytesPerTick)
  }

  /**
   * `os.walk(path)` from the top down: for each directory, the sizes of the
   * files directly in it, the directory itself first, then each sub-directory
   * in turn.
   */
  function Walk(n: Node): seq<seq<nat>>
    requires n.Dir?
    decreases n, 1
  {
    [n.files] + WalkAll(n.dirs)
  }

  function WalkAll(ds: seq<Node>): seq<seq<nat>>
    decreases ds, 0
  {
    if ds == [] then []
    else (if ds[0].Dir? then Walk(ds[0]) else [[ds[0].size]]) + WalkAll(ds[1..])
  }

  function WalkSize(w: seq<seq<nat>>, bytesPerTick: nat): nat
    requires bytesPerTick > 0
  {
    if w == [] then 0 else FilesSize(w[0], bytesPerTick) + WalkSize(w[1..], bytesPerTick)
  }

  lemma {:induction false} WalkSizeAppend(a: seq<seq<nat>>, b: seq<seq<nat>>, bytesPerTick: nat)
    requires bytesPerTick > 0
    ensures WalkSize(a + b, bytesPerTick) == WalkSize(a, bytesPerTick) + WalkSize(b, bytesPerTick)
  {
    if a != [] {
      assert (a + b)[1..] == a[1..] + b;
      WalkSizeAppend(a[1..], b, bytesPerTick);
    } else {
      assert a + b == b;
    }
  }

  /** Walking a directory visits every file of its tree once. */
  lemma {:induction false} WalkCoversTree(n: Node, bytesPerTick: nat)
    requires bytesPerTick > 0
    requires n.Dir?
    ensures WalkSize(Walk(n), bytesPerTick) == TreeSize(n, bytesPerTick)
    decreases n, 1
  {
    WalkAllCoversForest(n.dirs, bytesPerTick);
    assert Walk(n)[1..] == WalkAll(n.dirs);
  }

  lemma {:induction false} WalkAllCoversForest(ds: seq<Node>, bytesPerTick: nat)
    requires bytesPerTick > 0
    ensures WalkSize(WalkAll(ds), bytesPerTick) == ForestSize(ds, bytesPerTick)
    decreases ds, 0
  {
    if ds != [] {
      var head := if ds[0].Dir? then Walk(ds[0]) else [[ds[0].size]];
      if ds[0].Dir? {
        WalkCoversTree(ds[0], bytesPerTick);
      } else {
        assert FilesSize([ds[0].size], bytesPerTick) == GetSize(ds[0].size, bytesPerTick) + FilesSize([], bytesPerTick);
        assert WalkSize(head, bytesPerTick) == FilesSize(head[0], bytesPerTick) + WalkSize([], bytesPerTick);
      }
      WalkAllCoversForest(ds[1..], bytesPerTick);
      WalkSizeAppend(head, WalkAll(ds[1..]), bytesPerTick);
    }
  }

  /** The sizes of the files directly in one walked directory, summed. */
  method AddFiles(fs: seq<nat>, bytesPerTick: nat, size0: nat) returns (size: nat)
    requires bytesPerTick > 0
    ensures size == size0 + FilesSize(fs, bytesPerTick)
  {
    size := size0;
    var k := 0;
    while k < |fs|
      invariant 0 <= k <= |fs|
      invariant size + FilesSize(fs[k..], bytesPerTick) == size0 + FilesSize(fs, bytesPerTick)
    {
      assert fs[k..][1..] == fs[k + 1..];
      size := size + GetSize(fs[k], bytesPerTick);
      k := k + 1;
    }
  }

  /**
   * `_CopyLoader_calculate_size(paths, bytes_per_tick)`: the rounded sizes of
   * all files under the given paths, walking directories.
   */
  method CalculateSize(paths: seq<Node>, bytesPerTick: nat) returns (size: nat)
    requires bytesPerTick > 0
    ensures size == ForestSize(paths, bytesPerTick)
    ensures size % bytesPerTick == 0
  {
    size := 0;
    var k := 0;
    while k < |paths|
      invariant 0 <= k <= |paths|
      invariant size + ForestSize(paths[k..], bytesPerTick) == ForestSize(paths, bytesPerTick)
    {
      var path := paths[k];
      assert paths[k..][1..] == paths[k + 1..];
      if path.Dir? {
        var walk := Walk(path);
        WalkCoversTree(path, bytesPerTick);
        var size0 := size;
        var j := 0;
        while j < |walk|
          invariant 0 <= j <= |walk|
          invariant size + WalkSize(walk[j..], bytesPerTick) == size0 + WalkSize(walk, bytesPerTick)
        {
          assert walk[j..][1..] == walk[j + 1..];
          size := AddFiles(walk[j], bytesPerTick, size);
          j := j + 1;
        }
      } else {
        size := size + GetSize(path.size, bytesPerTick);
      }
      k := k + 1;
    }
    ForestSizeIsMultiple(paths, bytesPerTick);
  }

  lemma {:induction false} FilesSizeIsMultiple(fs: seq<nat>, bytesPerTick: nat)
    requires bytesPerTick > 0
    ensures FilesSize(fs, bytesPerTick) % bytesPerTick == 0
  {
    if fs != [] {
      FilesSizeIsMultiple(fs[1..], bytesPerTick);
      SumOfMultiples(GetSize(fs[0], bytesPerTick), FilesSize(fs[1..], bytesPerTick), bytesPerTick);
    }
  }

  lemma SumOfMultiples(a: nat, b: nat, m: nat)
    requires m > 0 && a % m == 0 && b % m == 0
    ensures (a + b) % m == 0
  {
    assert a == (a / m) * m + 0 && b == (b / m) * m + 0;
    assert a + b == (a / m + b / m) * m + 0;
    DivModUnique(a + b, m, a / m + b / m, 0);
  }

  /** The total is a whole number of ticks. */
  lemma {:induction false} TreeSizeIsMultiple(n: Node, bytesPerTick: nat)
    requires bytesPerTick > 0
    ensures TreeSize(n, bytesPerTick) % bytesPerTick == 0
    decreases n, 1
  {
    if n.Dir? {
      FilesSizeIsMultiple(n.files, bytesPerTick);
      ForestSizeIsMultiple(n.dirs, bytesPerTick);
      SumOfMultiples(FilesSize(n.files, bytesPerTick), ForestSize(n.dirs, bytesPerTick), bytesPerTick);
    }
  }

  lemma {:induction false} ForestSizeIsMultiple(ds: seq<Node>, bytesPerTick: nat)
    requires bytesPerTick > 0
    ensures ForestSize(ds, bytesPerTick) % bytesPerTick == 0
    decreases ds, 0
  {
    if ds != [] {
      TreeSizeIsMultiple(ds[0], bytesPerTick);
      ForestSizeIsMultiple(ds[1..], bytesPerTick);
      SumOfMultiples(TreeSize(ds[0], bytesPerTick), ForestSize(ds[1..], bytesPerTick), bytesPerTick);
    }
  }

  /** The plain sum of file sizes of a tree, without rounding. */
  function RawSize(n: Node): nat
    decreases n, 1
  {
    match n
    case File(s) => s
    case Dir(fs, ds) => RawFiles(fs) + RawForest(ds)
  }

  function RawForest(ds: seq<Node>): nat
    decreases ds, 0
  {
    if ds == [] then 0 else RawSize(ds[0]) + RawForest(ds[1..])
  }

  function RawFiles(fs: seq<nat>): nat {
    if fs == [] then 0 else fs[0] + RawFiles(fs[1..])
  }

  /** Rounding never loses bytes: the total covers the files as they are. */
  lemma {:induction false} TreeSizeCoversRaw(n: Node, bytesPerTick: nat)
    requires bytesPerTick > 0
    ensures RawSize(n) <= TreeSize(n, bytesPerTick)
    decreases n, 1
  {
    if n.Dir? {
      FilesCoverRaw(n.files, bytesPerTick);
      ForestCoversRaw(n.dirs, bytesPerTick);
    }
  }

  lemma {:induction false} ForestCoversRaw(ds: seq<Node>, bytesPerTick: nat)
    requires bytesPerTick > 0
    ensures RawForest(ds) <= ForestSize(ds, bytesPerTick)
    decreases ds, 0
  {
    if ds != [] {
      TreeSizeCoversRaw(ds[0], bytesPerTick);
      ForestCoversRaw(ds[1..], bytesPerTick);
    }
  }

  lemma {:induction false} FilesCoverRaw(fs: seq<nat>, bytesPerTick: nat)
    requires bytesPerTick > 0
    ensures RawFiles(fs) <= FilesSize(fs, bytesPerTick)
  {
    if fs != [] {
      FilesCoverRaw(fs[1..], bytesPerTick);
    }
  }

  /**
   * The size `CopyLoader.generate` computes its progress from: the last value
   * the size loader yielded, with 0 taken as 1. Nothing yielded leaves `size`
   * unbound (None).
   */
  function CopyTotal(yielded: seq<int>): (r: Option<int>)
    ensures r.Some? <==> yielded != []
    ensures r.Some? && yielded[|yielded| - 1] != 0 ==> r.value == yielded[|yielded| - 1]
    ensures r.Some? ==> r.value != 0
  {
    if yielded == [] then None
    else
      var size := yielded[|yielded| - 1];
      Some(if size == 0 then 1 else size)
  }

  /** Indices in strictly increasing order. */
  predicate Increasing(out: seq<nat>) {
    forall a, b :: 0 <= a < b < |out| ==> out[a] < out[b]
  }

  /** Indices all below `k`. */
  predicate Below(out: seq<nat>, k: nat) {
    forall a :: 0 <= a < |out| ==> out[a] < k
  }

  /** The first `m` yielded indices each came at least `interval` after the one before. */
  predicate Spaced(out: seq<nat>, times: seq<int>, start: int, interval: int, m: nat)
    requires m <= |out| && Below(out, |times|)
  {
    forall a :: 0 <= a < m ==> times[out[a]] - (if a == 0 then start else times[out[a - 1]]) >= interval
  }

  /** Spacing of the first `m` indices gives spacing of any fewer. */
  lemma SpacedPrefix(out: seq<nat>, times: seq<int>, start: int, interval: int, m: nat, m': nat)
    requires m' <= m <= |out| && Below(out, |times|) && Spaced(out, times, start, interval, m)
    ensures Spaced(out, times, start, interval, m')
  {
  }

  /** An increasing sequence of indices is bounded by any bound on its last one. */
  lemma LastIsLargest(out: seq<nat>, k: nat)
    requires Increasing(out) && out != [] && out[|out| - 1] < k
    ensures Below(out, k)
  {
    forall a | 0 <= a < |out| - 1
      ensures out[a] < k
    {
      assert out[a] < out[|out| - 1];
    }
  }

  /** Yielding index `k`, above every index so far, keeps the indices increasing and bounded. */
  lemma YieldKeepsOrder(out: seq<nat>, k: nat, n: nat)
    requires k < n && Increasing(out) && Below(out, k)
    ensures Increasing(out + [k]) && Below(out + [k], k + 1) && Below(out + [k], n)
  {
    var next := out + [k];
    assert forall a :: 0 <= a < |out| ==> next[a] == out[a];
  }

  /** Yielding index `k` keeps the spacing so far, and extends it when `k` itself is spaced. */
  lemma YieldKeepsSpacing(out: seq<nat>, k: nat, times: seq<int>, start: int, interval: int)
    requires k < |times| && Below(out, |times|) && Spaced(out, times, start, interval, |out|)
    ensures Below(out + [k], |times|)
    ensures Spaced(out + [k], times, start, interval, |out|)
    ensures times[k] - (if out == [] then start else times[out[|out| - 1]]) >= interval
      ==> Spaced(out + [k], times, start, interval, |out| + 1)
  {
    var next := out + [k];
    assert forall a :: 0 <= a < |out| ==> next[a] == out[a];
    forall a | 0 <= a < |out|
      ensures times[next[a]] - (if a == 0 then start else times[next[a - 1]]) >= interval
    {
      assert next[a] == out[a];
      assert times[out[a]] - (if a == 0 then start else times[out[a - 1]]) >= interval;
      if a > 0 {
        assert next[a - 1] == out[a - 1];
      }
    }
    assert Spaced(next, times, start, interval, |out|);
    if times[k] - (if out == [] then start else times[out[|out| - 1]]) >= interval {
      assert next[|out|] == k;
      if out != [] {
        assert next[|out| - 1] == out[|out| - 1];
      }
      assert Spaced(next, times, start, interval, |out| + 1);
    }
  }

  /**
   * `deferred_count(gen, interval)` over a generator of `|times|` items, where
   * `times[i]` is the clock when item `i` arrives and `start` the clock when
   * the count began: an index is yielded when at least `interval` has passed
   * since the last one yielded, and the last index is yielded at the end if it
   * was not already.
   */
  method DeferredCount(start: int, times: seq<int>, interval: int) returns (out: seq<nat>)
    ensures Increasing(out) && Below(out, |times|)
    ensures times == [] <==> out == []
    ensures times != [] ==> out[|out| - 1] == |times| - 1
    ensures out != [] ==> Spaced(out, times, start, interval, |out| - 1)
    ensures SkipsClose(out, times, start, interval, |times|)
  {
    var last, i;
    out, last, i := SpacedIndices(start, times, interval);
    if i != last {
      if out != [] {
        LastIsLargest(out, i.value);
      }
      YieldKeepsOrder(out, i.value, |times|);
      YieldKeepsSpacing(out, i.value, times, start, interval);
      YieldKeepsSkips(out, i.value, times, start, interval, |times| - 1);
      out := out + [i.value];
    } else if out != [] {
      SpacedPrefix(out, times, start, interval, |out|, |out| - 1);
    }
  }

  /**
   * The `for` loop of `deferred_count`: the indices yielded because `interval`
   * had passed, the last of them, and the last index the loop saw.
   */
  method SpacedIndices(start: int, times: seq<int>, interval: int) returns (out: seq<nat>, last: Option<nat>, i: Option<nat>)
    ensures Increasing(out) && Below(out, |times|)
    ensures i == if times == [] then None else Some(|times| - 1)
    ensures last == if out == [] then None else Some(out[|out| - 1])
    ensures Spaced(out, times, start, interval, |out|)
    ensures SkipsClose(out, times, start, interval, |times|)
  {
    var prev := start;
    last, i := None, None;
    out := [];
    var k := 0;
    while k < |times|
      invariant 0 <= k <= |times|
      invariant i == if k == 0 then None else Some(k - 1)
      invariant Scanned(times, start, interval, k, out, last, prev)
    {
      i := Some(k);
      var now := times[k];
      ScanStep(times, start, interval, k, out, last, prev);
      if now - prev >= interval {
        prev := now;
        out := out + [k];
        last := Some(k);
      }
      k := k + 1;
    }
  }

  /** What the loop of `deferred_count` keeps once it has looked at the first `k` times. */
  predicate Scanned(times: seq<int>, start: int, interval: int, k: nat, out: seq<nat>, last: Option<nat>, prev: int) {
    k <= |times| && Increasing(out) && Below(out, k) && Below(out, |times|)
    && last == (if out == [] then None else Some(out[|out| - 1]))
    && prev == (if out == [] then start else times[out[|out| - 1]])
    && Spaced(out, times, start, interval, |out|)
    && SkipsClose(out, times, start, interval, k)
  }

  /** The clock of the last index in `out` below `j`, or `start` when there is none: the `prev` an index `j` is compared with. */
  function PrevYield(out: seq<nat>, j: nat, times: seq<int>, start: int): int
    requires Below(out, |times|)
  {
    if out == [] then start
    else if out[|out| - 1] < j then times[out[|out| - 1]]
    else PrevYield(out[..|out| - 1], j, times, start)
  }

  /** Every index below `k` that was not yielded came less than `interval` after the yield before it. */
  predicate SkipsClose(out: seq<nat>, times: seq<int>, start: int, interval: int, k: nat)
    requires Below(out, |times|) && k <= |times|
  {
    forall j :: 0 <= j < k && j !in out ==> times[j] - PrevYield(out, j, times, start) < interval
  }

  /** Yielding index `x` does not change what any index up to `x` is compared with, nor the skips below `k <= x`. */
  lemma YieldKeepsSkips(out: seq<nat>, x: nat, times: seq<int>, start: int, interval: int, k: nat)
    requires x < |times| && k <= x && Below(out, |times|) && SkipsClose(out, times, start, interval, k)
    ensures Below(out + [x], |times|)
    ensures forall j :: 0 <= j <= x ==> PrevYield(out + [x], j, times, start) == PrevYield(out, j, times, start)
    ensures SkipsClose(out + [x], times, start, interval, k)
  {
    var next := out + [x];
    assert next[..|next| - 1] == out;
    forall j | 0 <= j < k && j !in next
      ensures times[j] - PrevYield(next, j, times, start) < interval
    {
      assert j !in out;
    }
  }

  /** Skipping index `k`, whose gap since the last yield is below `interval`, extends the skips to `k + 1`. */
  lemma SkipKeepsSkips(out: seq<nat>, times: seq<int>, start: int, interval: int, k: nat, prev: int)
    requires k < |times| && Below(out, k) && Below(out, |times|) && SkipsClose(out, times, start, interval, k)
    requires prev == (if out == [] then start else times[out[|out| - 1]]) && times[k] - prev < interval
    ensures SkipsClose(out, times, start, interval, k + 1)
  {
    assert PrevYield(out, k, times, start) == prev;
  }

  /** One iteration of the loop keeps what it keeps, whether or not it yields index `k`. */
  lemma ScanStep(times: seq<int>, start: int, interval: int, k: nat, out: seq<nat>, last: Option<nat>, prev: int)
    requires k < |times| && Scanned(times, start, interval, k, out, last, prev)
    ensures times[k] - prev >= interval ==> Scanned(times, start, interval, k + 1, out + [k], Some(k), times[k])
    ensures times[k] - prev < interval ==> Scanned(times, start, interval, k + 1, out, last, prev)
  {
    if times[k] - prev >= interval {
      YieldKeepsOrder(out, k, |times|);
      YieldKeepsSpacing(out, k, times, start, interval);
      YieldKeepsSkips(out, k, times, start, interval, k);
      assert (out + [k])[|out + [k]| - 1] == k;
      assert k in out + [k];
    } else {
      assert Below(out, k + 1);
      SkipKeepsSkips(out, times, start, interval, k, prev);
    }
  }

  /**
   * `ExternalLoader.generate` over what the external run yields: each value is
   * passed on and becomes the current one; of each run of Nones the first is
   * swallowed and the second yields the current value, and so on alternately.
   */
  function Generate<T>(ext: seq<Option<T>>, current: T, first: bool): (r: seq<T>)
    ensures |r| <= |ext|
  {
    if ext == [] then []
    else if ext[0].None? then
      if first then Generate(ext[1..], current, false)
      else [current] + Generate(ext[1..], current, true)
    else [ext[0].value] + Generate(ext[1..], ext[0].value, true)
  }

  /** `k` Nones. */
  function Nones<T>(k: nat): (r: seq<Option<T>>)
    ensures |r| == k && forall i :: 0 <= i < k ==> r[i] == None
  {
    seq(k, _ => None)
  }

  function Repeat<T>(x: T, k: nat): (r: seq<T>)
    ensures |r| == k && forall i :: 0 <= i < k ==> r[i] == x
  {
    seq(k, _ => x)
  }

  /** A run of at least two Nones starts with two of them. */
  lemma NonesUnfold<T>(k: nat, rest: seq<Option<T>>)
    requires k >= 2
    ensures Nones<T>(k) + rest == [None, None] + (Nones<T>(k - 2) + rest)
  {
    assert (Nones<T>(k) + rest)[2..] == Nones<T>(k - 2) + rest;
  }

  /** Two Nones in a row yield the current value once and re-arm the first skip. */
  lemma TwoNones<T>(u: seq<Option<T>>, current: T)
    ensures Generate([None, None] + u, current, true) == [current] + Generate(u, current, true)
  {
    var s := [None, None] + u;
    assert s[1..] == [None] + u && s[1..][1..] == u;
  }

  lemma RepeatUnfold<T>(x: T, m: nat)
    ensures Repeat(x, m + 1) == [x] + Repeat(x, m)
  {
  }

  /** `m` pairs of Nones yield the current value `m` times and leave the first skip armed. */
  lemma {:induction false} NonePairs<T>(m: nat, current: T, rest: seq<Option<T>>)
    ensures Generate(Nones<T>(2 * m) + rest, current, true) == Repeat(current, m) + Generate(rest, current, true)
    decreases m
  {
    if m == 0 {
      assert Nones<T>(0) + rest == rest;
      assert Repeat(current, 0) == [];
    } else {
      var n := 2 * m - 2;
      assert n == 2 * (m - 1);
      var u := Nones<T>(n) + rest;
      NonesUnfold(2 * m, rest);
      TwoNones(u, current);
      assert Generate(Nones<T>(2 * m) + rest, current, true) == [current] + Generate(u, current, true);
      NonePairs(m - 1, current, rest);
      RepeatUnfold(current, m - 1);
      var g := Generate(rest, current, true);
      assert [current] + (Repeat(current, m - 1) + g) == ([current] + Repeat(current, m - 1)) + g;
    }
  }

  /** A run of `k` Nones yields the current value `k / 2` times. */
  lemma NoneRunYieldsHalf<T>(k: nat, current: T, rest: seq<Option<T>>)
    ensures Generate(Nones<T>(k) + rest, current, true)
      == Repeat(current, k / 2) + Generate(rest, current, k % 2 == 0)
  {
    var m := k / 2;
    if k % 2 == 0 {
      assert k == 2 * m;
      NonePairs(m, current, rest);
    } else {
      assert k == 2 * m + 1;
      assert Nones<T>(k) + rest == Nones<T>(2 * m) + ([None] + rest);
      NonePairs(m, current, [None] + rest);
      assert ([None] + rest)[1..] == rest;
    }
  }

  /** A value from the external run is always yielded, and becomes the current value. */
  lemma GenerateValue<T>(x: T, current: T, first: bool, rest: seq<Option<T>>)
    ensures Generate([Some(x)] + rest, current, first) == [x] + Generate(rest, x, true)
  {
    assert ([Some(x)] + rest)[1..] == rest;
  }

  /** Without Nones, `generate` yields exactly the external values in order. */
  lemma {:induction false} GenerateWithoutNones<T>(xs: seq<T>, current: T, first: bool)
    ensures Generate(seq(|xs|, i requires 0 <= i < |xs| => Some(xs[i])), current, first) == xs
  {
    var ext := seq(|xs|, i requires 0 <= i < |xs| => Some(xs[i]));
    if xs != [] {
      assert ext[1..] == seq(|xs[1..]|, i requires 0 <= i < |xs[1..]| => Some(xs[1..][i]));
      GenerateWithoutNones(xs[1..], xs[0], true);
      assert xs == [xs[0]] + xs[1..];
    }
  }

  /** Everything `generate` yields is the initial value or a value of the external run. */
  lemma {:induction false} GenerateYieldsKnownValues<T>(ext: seq<Option<T>>, current: T, first: bool)
    ensures forall j :: 0 <= j < |Generate(ext, current, first)| ==>
      Generate(ext, current, first)[j] == current ||
      exists i :: 0 <= i < |ext| && ext[i] == Some(Generate(ext, current, first)[j])
  {
    if ext != [] {
      var r := Generate(ext, current, first);
      if ext[0].None? {
        var f := !first;
        GenerateYieldsKnownValues(ext[1..], current, f);
        forall j | 0 <= j < |r|
          ensures r[j] == current || exists i :: 0 <= i < |ext| && ext[i] == Some(r[j])
        {
          var t := Generate(ext[1..], current, f);
          var j' := if first then j else j - 1;
          if !first && j == 0 {
          } else {
            assert r[j] == t[j'];
            if t[j'] != current {
              var i :| 0 <= i < |ext[1..]| && ext[1..][i] == Some(t[j']);
              assert ext[i + 1] == Some(r[j]);
            }
          }
        }
      } else {
        var x := ext[0].value;
        GenerateYieldsKnownValues(ext[1..], x, true);
        forall j | 0 <= j < |r|
          ensures r[j] == current || exists i :: 0 <= i < |ext| && ext[i] == Some(r[j])
        {
          if j == 0 {
            assert ext[0] == Some(r[0]);
          } else {
            var t := Generate(ext[1..], x, true);
            assert r[j] == t[j - 1];
            if t[j - 1] == x {
              assert ext[0] == Some(r[j]);
            } else {
              var i :| 0 <= i < |ext[1..]| && ext[1..][i] == Some(t[j - 1]);
              assert ext[i + 1] == Some(r[j]);
            }
          }
        }
      }
    }
  }

  /** `ExternalLoader.generate` as the loop it is. */
  method GenerateLoop<T>(init: T, ext: seq<Option<T>>) returns (out: seq<T>)
    ensures out == Generate(ext, init, true)
  {
    var current := init;
    var first := true;
    out := [];
    var k := 0;
    while k < |ext|
      invariant 0 <= k <= |ext|
      invariant out + Generate(ext[k..], current, first) == Generate(ext, init, true)
    {
      var n := ext[k];
      GenerateFrom(ext, k, current, first);
      k := k + 1;
      if n.None? {
        if first {
          first := false;
          continue;
        }
        assert out + ([current] + Generate(ext[k..], current, true)) == (out + [current]) + Generate(ext[k..], current, true);
        out := out + [current];
        first := true;
        continue;
      }
      current := n.value;
      assert out + ([current] + Generate(ext[k..], current, true)) == (out + [current]) + Generate(ext[k..], current, true);
      out := out + [n.value];
      first := true;
    }
  }

  /** Generate from position `k` takes one step of the run. */
  lemma GenerateFrom<T>(ext: seq<Option<T>>, k: nat, current: T, first: bool)
    requires k < |ext|
    ensures Generate(ext[k..], current, first) ==
      if ext[k].None? then
        if first then Generate(ext[k + 1..], current, false) else [current] + Generate(ext[k + 1..], current, true)
      else [ext[k].value] + Generate(ext[k + 1..], ext[k].value, true)
  {
    assert ext[k..][0] == ext[k] && ext[k..][1..] == ext[k + 1..];
  }

  /** The outcome of the function a `sudo_enabled` wrapper runs: a value, or an exception it raises. */
  datatype Outcome<T> = Returned(value: T) | Raised(error: string)

  /** The module's global `Sudo` flag. */
  class SudoFlag {
    var sudo: bool

    constructor ()
      ensures !sudo
    {
      sudo := false;
    }

    /**
     * A call through `sudo_enabled(f)`: `Sudo` is set while `f` runs, `f`'s
     * value or exception passes through, and `Sudo` is cleared afterwards in
     * either case. `f` receives the flag as it reads it while running.
     */
    method Call<T>(f: bool -> Outcome<T>) returns (r: Outcome<T>)
      modifies this
      ensures r == f(true) && !sudo
    {
      sudo := true;
      r := f(sudo);
      sudo := false;
    }
  }
}

/**
 * The run-length mask codec of the Carvana submission format (utils.py,
 * `rle_decode` and `rle_encode`). A mask is taken already binarised and
 * flattened in row-major order: `true` is a foreground pixel. An encoding is
 * a space-separated list of decimal pairs "start length", the start counted
 * from 1.
 */
module Rle {
  import opened Wrappers
  import opened Strings

  // ===========================================================================
  // Runs: the reference definition of the encoding
  // ===========================================================================

  /** One run of foreground pixels: its 1-based start and its length. */
  datatype Run = Run(start: nat, length: nat)

  /** Run `r` covers the 0-based flat index `k`. */
  predicate Covers(r: Run, k: int)
  {
    r.start - 1 <= k < r.start - 1 + r.length
  }

  /**
   * `rs` is a run-length encoding of mask `x`: every run is non-empty and
   * inside the mask, consecutive runs are separated by at least one
   * background pixel (so starts strictly increase), and a pixel is
   * foreground exactly when some run covers it.
   */
  ghost predicate IsRle(x: seq<bool>, rs: seq<Run>)
  {
    RunsInside(|x|, rs) && RunsSeparated(rs) && RunsCover(x, rs)
  }

  /** Every run is non-empty and lies inside a mask of n pixels. */
  ghost predicate RunsInside(n: nat, rs: seq<Run>)
  {
    forall i :: 0 <= i < |rs| ==> 1 <= rs[i].start && 1 <= rs[i].length && rs[i].start - 1 + rs[i].length <= n
  }

  /** A later run starts after at least one background pixel following an earlier one. */
  ghost predicate RunsSeparated(rs: seq<Run>)
  {
    forall i, j :: 0 <= i < j < |rs| ==> rs[i].start + rs[i].length < rs[j].start
  }

  /** A pixel is foreground exactly when some run covers it. */
  ghost predicate RunsCover(x: seq<bool>, rs: seq<Run>)
  {
    forall k :: 0 <= k < |x| ==> (x[k] <==> Covered(rs, k))
  }

  ghost predicate Covered(rs: seq<Run>, k: int)
  {
    exists i :: 0 <= i < |rs| && Covers(rs[i], k)
  }

  /** The maximal foreground runs of `x`, left to right. */
  function Runs(x: seq<bool>): (rs: seq<Run>)
    ensures |x| > 0 && x[|x| - 1] ==>
      |rs| > 0 && rs[|rs| - 1].length >= 1 && rs[|rs| - 1].start - 1 + rs[|rs| - 1].length == |x|
    ensures |x| > 0 && x[0] ==> |rs| > 0 && rs[0].start == 1
    decreases |x|
  {
    if |x| == 0 then []
    else
      var y := x[..|x| - 1];
      var rs := Runs(y);
      assert |y| > 0 ==> y[0] == x[0];
      if !x[|x| - 1] then rs
      else if |y| > 0 && y[|y| - 1] then rs[..|rs| - 1] + [Run(rs[|rs| - 1].start, rs[|rs| - 1].length + 1)]
      else rs + [Run(|x|, 1)]
  }

  /** The pair list `[start_1, length_1, start_2, length_2, ...]` of some runs. */
  function Flat(rs: seq<Run>): (f: seq<nat>)
    ensures |f| == 2 * |rs|
    decreases |rs|
  {
    if |rs| == 0 then [] else Flat(rs[..|rs| - 1]) + [rs[|rs| - 1].start, rs[|rs| - 1].length]
  }

  /** Entry 2i of the pair list is the start of run i and entry 2i+1 its length. */
  lemma {:induction false} FlatAt(rs: seq<Run>, i: nat)
    requires i < |rs|
    ensures Flat(rs)[2 * i] == rs[i].start && Flat(rs)[2 * i + 1] == rs[i].length
    decreases |rs|
  {
    if i < |rs| - 1 {
      FlatAt(rs[..|rs| - 1], i);
    }
  }

  /** `[str(v) for v in vs]`. */
  function Strs(vs: seq<int>): (ws: seq<string>)
    ensures |ws| == |vs|
  {
    seq(|vs|, k requires 0 <= k < |vs| => IntToString(vs[k]))
  }

  /** The string `rle_encode(x, 'fast')` returns: the space-joined pair list of the runs. */
  function FastEncoding(x: seq<bool>): string
  {
    Join(Strs(Flat(Runs(x))))
  }

  // ---------------------------------------------------------------------------
  // Properties of Runs
  // ---------------------------------------------------------------------------

  /** No run inside a mask of n pixels covers an index at or past n. */
  lemma {:induction false} NotCoveredPastEnd(rs: seq<Run>, n: nat, k: int)
    requires RunsInside(n, rs) && k >= n
    ensures !Covered(rs, k)
  {
  }

  /** Appending a background pixel keeps an encoding valid. */
  lemma {:induction false} IsRleBackground(y: seq<bool>, rs: seq<Run>)
    requires IsRle(y, rs)
    ensures IsRle(y + [false], rs)
  {
    var x := y + [false];
    forall k | 0 <= k < |x| ensures x[k] <==> Covered(rs, k) {
      if k < |y| {
        assert x[k] == y[k];
      } else {
        NotCoveredPastEnd(rs, |y|, k);
      }
    }
  }

  /** Growing the last run by one pixel changes coverage only at the pixel after it. */
  lemma {:induction false} CoveredGrowLast(rs: seq<Run>, rs': seq<Run>, k: int)
    requires |rs| > 0 && |rs'| == |rs|
    requires rs'[..|rs| - 1] == rs[..|rs| - 1]
    requires rs'[|rs| - 1] == Run(rs[|rs| - 1].start, rs[|rs| - 1].length + 1)
    requires k < rs[|rs| - 1].start - 1 + rs[|rs| - 1].length
    ensures Covered(rs', k) <==> Covered(rs, k)
  {
    var m := |rs|;
    assert forall i :: 0 <= i < m - 1 ==> rs'[i] == rs'[..m - 1][i] == rs[..m - 1][i] == rs[i];
    if Covered(rs', k) {
      var i :| 0 <= i < m && Covers(rs'[i], k);
      assert Covers(rs[i], k);
    }
    if Covered(rs, k) {
      var i :| 0 <= i < m && Covers(rs[i], k);
      assert Covers(rs'[i], k);
    }
  }

  /** Appending a foreground pixel right after the last run grows that run. */
  lemma {:induction false} IsRleGrow(y: seq<bool>, rs: seq<Run>)
    requires IsRle(y, rs)
    requires |rs| > 0 && rs[|rs| - 1].start - 1 + rs[|rs| - 1].length == |y|
    ensures var m := |rs|;
      IsRle(y + [true], rs[..m - 1] + [Run(rs[m - 1].start, rs[m - 1].length + 1)])
  {
    var x := y + [true];
    var m := |rs|;
    var rs' := rs[..m - 1] + [Run(rs[m - 1].start, rs[m - 1].length + 1)];
    assert forall i :: 0 <= i < m - 1 ==> rs'[i] == rs[i];
    assert rs'[m - 1].start == rs[m - 1].start;
    assert RunsInside(|x|, rs');
    forall i, j | 0 <= i < j < |rs'| ensures rs'[i].start + rs'[i].length < rs'[j].start {
      assert rs'[i] == rs[i];
    }
    forall k | 0 <= k < |x| ensures x[k] <==> Covered(rs', k) {
      if k < |y| {
        assert x[k] == y[k];
        CoveredGrowLast(rs, rs', k);
      } else {
        assert Covers(rs'[m - 1], k);
      }
    }
  }

  /** Appending a run adds coverage only at the indices it covers. */
  lemma {:induction false} CoveredAppend(rs: seq<Run>, r: Run, k: int)
    requires !Covers(r, k)
    ensures Covered(rs + [r], k) <==> Covered(rs, k)
  {
    if Covered(rs + [r], k) {
      var i :| 0 <= i < |rs| + 1 && Covers((rs + [r])[i], k);
      assert i < |rs|;
      assert Covers(rs[i], k);
    }
    if Covered(rs, k) {
      var i :| 0 <= i < |rs| && Covers(rs[i], k);
      assert Covers((rs + [r])[i], k);
    }
  }

  /** Appending a foreground pixel after a background one (or at the start) opens a new run. */
  lemma {:induction false} IsRleOpen(y: seq<bool>, rs: seq<Run>)
    requires IsRle(y, rs)
    requires |y| == 0 || !y[|y| - 1]
    ensures IsRle(y + [true], rs + [Run(|y| + 1, 1)])
  {
    var x := y + [true];
    var m := |rs|;
    var r := Run(|y| + 1, 1);
    var rs' := rs + [r];
    if m > 0 {
      var last := rs[m - 1];
      var e := last.start - 1 + last.length;
      assert Covers(last, e - 1);
      assert Covered(rs, e - 1);
      assert y[e - 1];
      assert e - 1 != |y| - 1;
      forall i | 0 <= i < m ensures rs[i].start + rs[i].length < r.start {
        if i < m - 1 {
          assert rs[i].start + rs[i].length < rs[m - 1].start;
        }
      }
    }
    assert RunsInside(|x|, rs');
    assert RunsSeparated(rs');
    forall k | 0 <= k < |x| ensures x[k] <==> Covered(rs', k) {
      if k < |y| {
        assert x[k] == y[k];
        CoveredAppend(rs, r, k);
      } else {
        assert Covers(rs'[m], k);
      }
    }
  }

  /** How `Runs` changes when one pixel is appended. */
  lemma {:induction false} RunsSnoc(y: seq<bool>, c: bool)
    ensures var rs := Runs(y); var m := |rs|;
      Runs(y + [c]) ==
        if !c then rs
        else if |y| > 0 && y[|y| - 1] then rs[..m - 1] + [Run(rs[m - 1].start, rs[m - 1].length + 1)]
        else rs + [Run(|y| + 1, 1)]
  {
    assert (y + [c])[..|y|] == y;
  }

  /**
   * The runs once foreground pixel `b` (0-based) follows them: the last run
   * grows when `grow` says it reaches up to `b`, otherwise a run opens at `b`.
   */
  function Extend(rs: seq<Run>, b: nat, grow: bool): seq<Run>
    requires grow ==> |rs| > 0
  {
    if grow then rs[..|rs| - 1] + [Run(rs[|rs| - 1].start, rs[|rs| - 1].length + 1)]
    else rs + [Run(b + 1, 1)]
  }

  /** One more foreground pixel extends the runs. */
  lemma {:induction false} RunsSnocForeground(y: seq<bool>)
    ensures |y| > 0 && y[|y| - 1] ==> |Runs(y)| > 0
    ensures Runs(y + [true]) == Extend(Runs(y), |y|, |y| > 0 && y[|y| - 1])
  {
    RunsSnoc(y, true);
  }

  /** `Runs(x)` is a run-length encoding of `x`. */
  lemma {:induction false} RunsIsRle(x: seq<bool>)
    ensures IsRle(x, Runs(x))
    decreases |x|
  {
    if |x| > 0 {
      var y, c := x[..|x| - 1], x[|x| - 1];
      assert x == y + [c];
      RunsIsRle(y);
      RunsSnoc(y, c);
      if !c {
        IsRleBackground(y, Runs(y));
      } else if |y| > 0 && y[|y| - 1] {
        IsRleGrow(y, Runs(y));
      } else {
        IsRleOpen(y, Runs(y));
      }
    }
  }

  /** The mask has no run exactly when it has no foreground pixel. */
  lemma {:induction false} RunsEmptyIff(x: seq<bool>)
    ensures Runs(x) == [] <==> forall k :: 0 <= k < |x| ==> !x[k]
  {
    RunsIsRle(x);
    var rs := Runs(x);
    if rs != [] {
      assert Covers(rs[0], rs[0].start - 1);
      assert Covered(rs, rs[0].start - 1);
      assert x[rs[0].start - 1];
    }
  }

  /** An all-foreground mask of n >= 1 pixels is the single run (1, n). */
  lemma {:induction false} RunsAllForeground(x: seq<bool>)
    requires |x| >= 1 && forall k :: 0 <= k < |x| ==> x[k]
    ensures Runs(x) == [Run(1, |x|)]
    decreases |x|
  {
    if |x| > 1 {
      RunsAllForeground(x[..|x| - 1]);
    }
  }

  /** Appending background pixels does not change the runs. */
  lemma {:induction false} RunsBackgroundSuffix(x: seq<bool>, p: nat, q: nat)
    requires p <= q <= |x|
    requires forall k :: p <= k < q ==> !x[k]
    ensures Runs(x[..q]) == Runs(x[..p])
    decreases q - p
  {
    if p < q {
      RunsBackgroundSuffix(x, p, q - 1);
      assert x[..q][..q - 1] == x[..q - 1];
    }
  }

  /** Flat of runs extended by one run. */
  lemma {:induction false} FlatAppend(rs: seq<Run>, r: Run)
    ensures Flat(rs + [r]) == Flat(rs) + [r.start, r.length]
  {
    assert (rs + [r])[..|rs|] == rs;
  }

  /** Flat of runs whose last run grew by one pixel: its last entry grows by one. */
  lemma {:induction false} FlatGrowLast(rs: seq<Run>, m: nat)
    requires m == |rs| && m > 0
    ensures var f := Flat(rs);
      Flat(rs[..m - 1] + [Run(rs[m - 1].start, rs[m - 1].length + 1)]) == f[..|f| - 1] + [f[|f| - 1] + 1]
  {
    var front := rs[..m - 1];
    var r := Run(rs[m - 1].start, rs[m - 1].length + 1);
    FlatAppend(front, r);
    var f := Flat(rs);
    assert f == Flat(front) + [rs[m - 1].start, rs[m - 1].length];
    assert |Flat(front)| == 2 * m - 2;
    assert f[..|f| - 1] == Flat(front) + [rs[m - 1].start];
    assert f[|f| - 1] == rs[m - 1].length;
  }

  lemma {:induction false} StrsAppend(a: seq<int>, b: seq<int>)
    ensures Strs(a + b) == Strs(a) + Strs(b)
  {
  }

  lemma {:induction false} StrsAreWords(vs: seq<nat>)
    ensures forall i :: 0 <= i < |Strs(vs)| ==> IsWord(Strs(vs)[i])
  {
    forall i | 0 <= i < |vs| ensures IsWord(Strs(vs)[i]) {
      var w := NatToString(vs[i]);
      assert Strs(vs)[i] == w;
      forall j | 0 <= j < |w| ensures !IsSpace(w[j]) { assert IsDigit(w[j]); }
    }
  }

  /** The 'fast' encoding of an all-background mask is the empty string, and only of such masks. */
  lemma {:induction false} FastEncodingEmptyIff(x: seq<bool>)
    ensures FastEncoding(x) == "" <==> forall k :: 0 <= k < |x| ==> !x[k]
  {
    RunsEmptyIff(x);
    var ws := Strs(Flat(Runs(x)));
    if |ws| > 0 {
      StrsAreWords(Flat(Runs(x)));
      SplitJoin(ws);
      assert SplitWs(FastEncoding(x)) != [];
    }
  }

  /** The text of the single pair (1, n). */
  lemma {:induction false} OneRunText(n: nat)
    ensures Join(Strs([1, n])) == "1 " + NatToString(n)
  {
    assert NatToString(1) == "1";
    assert Strs([1, n]) == [IntToString(1), IntToString(n)];
    JoinPair("1", NatToString(n));
  }

  /** The 'fast' encoding of an all-foreground mask of n pixels is "1 n". */
  lemma {:induction false} FastEncodingAllForeground(x: seq<bool>)
    requires |x| >= 1 && forall k :: 0 <= k < |x| ==> x[k]
    ensures FastEncoding(x) == "1 " + NatToString(|x|)
  {
    assert Flat(Runs(x)) == [1, |x|] by {
      RunsAllForeground(x);
      assert Flat([Run(1, |x|)]) == [1, |x|];
    }
    OneRunText(|x|);
  }

  // ===========================================================================
  // rle_encode(x, 'fast')
  // ===========================================================================

  /** `np.where(x == 1)[0]`: the indices of the foreground pixels, in increasing order. */
  function Ones(x: seq<bool>): (os: seq<nat>)
    ensures forall j :: 0 <= j < |os| ==> os[j] < |x| && x[os[j]]
    decreases |x|
  {
    if |x| == 0 then []
    else
      var y := x[..|x| - 1];
      assert forall k :: 0 <= k < |y| ==> y[k] == x[k];
      Ones(y) + (if x[|x| - 1] then [|x| - 1] else [])
  }

  /** The foreground indices are listed in increasing order. */
  lemma {:induction false} OnesIncreasing(x: seq<bool>, i: nat, j: nat)
    requires i < j < |Ones(x)|
    ensures Ones(x)[i] < Ones(x)[j]
    decreases |x|
  {
    var y := x[..|x| - 1];
    if j < |Ones(y)| {
      OnesIncreasing(y, i, j);
    }
  }

  /** Every foreground index is listed. */
  lemma {:induction false} OnesComplete(x: seq<bool>, k: nat)
    requires k < |x| && x[k]
    ensures k in Ones(x)
    decreases |x|
  {
    var y := x[..|x| - 1];
    if k < |y| {
      OnesComplete(y, k);
    }
  }

  /** The last foreground index is the last pixel exactly when that pixel is foreground. */
  lemma {:induction false} OnesLast(x: seq<bool>)
    requires |x| > 0
    ensures x[|x| - 1] ==> |Ones(x)| > 0 && Ones(x)[|Ones(x)| - 1] == |x| - 1
    ensures !x[|x| - 1] ==> |Ones(x)| == 0 || Ones(x)[|Ones(x)| - 1] < |x| - 1
  {
  }

  /**
   * One pass of the 'fast' loop body on the pair list `f` for foreground
   * index `b`: add one to the last length when `b` follows the previous
   * index (`grow`), otherwise open the pair (b + 1, 1).
   */
  function PairsStep(f: seq<nat>, b: nat, grow: bool): seq<nat>
    requires grow ==> |f| > 0
  {
    if grow then f[..|f| - 1] + [f[|f| - 1] + 1] else f + [b + 1, 1]
  }

  /** The pair list the 'fast' loop builds from the foreground indices `os`. */
  function FastPairs(os: seq<nat>): (f: seq<nat>)
    ensures |os| > 0 ==> |f| >= 2
    decreases |os|
  {
    if |os| == 0 then []
    else
      var n := |os|;
      PairsStep(FastPairs(os[..n - 1]), os[n - 1], n > 1 && os[n - 1] <= os[n - 2] + 1)
  }

  /** One more foreground index, as `FastPairs` reads it. */
  lemma {:induction false} FastPairsSnoc(os: seq<nat>, b: nat)
    ensures FastPairs(os + [b]) == PairsStep(FastPairs(os), b, |os| > 0 && b <= os[|os| - 1] + 1)
  {
    var os' := os + [b];
    assert os'[..|os'| - 1] == os;
    assert os'[|os'| - 1] == b;
    assert |os| > 0 ==> os'[|os'| - 2] == os[|os| - 1];
  }

  /** The two edits the 'fast' loop body makes to its pair list amount to `PairsStep`. */
  lemma {:induction false} BumpLast(out: seq<nat>, b: nat, open: bool)
    requires open || |out| > 0
    ensures var g := if open then out + [b + 1, 0] else out;
      |g| > 0 && g[..|g| - 1] + [g[|g| - 1] + 1] == PairsStep(out, b, !open)
  {
    if open {
      var g := out + [b + 1, 0];
      assert g[..|g| - 1] == out + [b + 1];
    }
  }

  /** `PairsStep` is what `Extend` does to the runs, read through `Flat`. */
  lemma {:induction false} FlatExtend(rs: seq<Run>, b: nat, grow: bool)
    requires grow ==> |rs| > 0
    ensures |Flat(rs)| == 2 * |rs|
    ensures Flat(Extend(rs, b, grow)) == PairsStep(Flat(rs), b, grow)
  {
    var f := Flat(rs);
    if grow {
      var m := |rs|;
      assert Extend(rs, b, grow) == rs[..m - 1] + [Run(rs[m - 1].start, rs[m - 1].length + 1)];
      assert PairsStep(f, b, grow) == f[..|f| - 1] + [f[|f| - 1] + 1];
      FlatGrowLast(rs, m);
    } else {
      assert Extend(rs, b, grow) == rs + [Run(b + 1, 1)];
      assert PairsStep(f, b, grow) == f + [b + 1, 1];
      FlatAppend(rs, Run(b + 1, 1));
    }
  }

  /** `Ones` of a mask with one more pixel. */
  lemma {:induction false} OnesSnoc(y: seq<bool>, c: bool)
    ensures Ones(y + [c]) == if c then Ones(y) + [|y|] else Ones(y)
  {
    assert (y + [c])[..|y|] == y;
  }

  /** One more foreground pixel keeps the 'fast' pair list equal to the pair list of the runs. */
  lemma {:induction false} FastPairsOnesSnoc(y: seq<bool>)
    requires FastPairs(Ones(y)) == Flat(Runs(y))
    ensures FastPairs(Ones(y + [true])) == Flat(Runs(y + [true]))
  {
    OnesSnoc(y, true);
    RunsSnocForeground(y);
    if |y| > 0 {
      OnesLast(y);
    }
    var os := Ones(y);
    assert (|os| > 0 && |y| <= os[|os| - 1] + 1) == (|y| > 0 && y[|y| - 1]);
    FastPairsSnoc(os, |y|);
    FlatExtend(Runs(y), |y|, |y| > 0 && y[|y| - 1]);
  }

  /** The 'fast' pair list of the foreground indices is the pair list of the runs. */
  lemma {:induction false} FastPairsOnes(x: seq<bool>)
    ensures FastPairs(Ones(x)) == Flat(Runs(x))
    decreases |x|
  {
    if |x| > 0 {
      var y := x[..|x| - 1];
      var c := x[|x| - 1];
      FastPairsOnes(y);
      assert x == y + [c];
      if c {
        FastPairsOnesSnoc(y);
      } else {
        OnesSnoc(y, false);
        RunsSnoc(y, false);
      }
    }
  }

  /** One iteration of the 'fast' loop extends the pair list of the indices seen by one more index. */
  lemma {:induction false} FastLoopStep(ones: seq<nat>, j: nat, out: seq<nat>, prev: int)
    requires j < |ones| && prev == (if j == 0 then -2 else ones[j - 1]) && out == FastPairs(ones[..j])
    ensures var b := ones[j];
      var g := if b > prev + 1 then out + [b + 1, 0] else out;
      |g| > 0 && g[..|g| - 1] + [g[|g| - 1] + 1] == FastPairs(ones[..j + 1])
  {
    var b := ones[j];
    var done := ones[..j];
    assert ones[..j + 1] == done + [b];
    var grow := |done| > 0 && b <= done[|done| - 1] + 1;
    assert grow == !(b > prev + 1);
    FastPairsSnoc(done, b);
    BumpLast(out, b, !grow);
  }

  /**
   * `rle_encode(x, mode='fast')`: a loop over the foreground indices, opening
   * a new pair when an index does not follow the previous one and adding one
   * to the current length otherwise; the result is the space-joined pair list
   * of the runs of `x`.
   */
  method EncodeFast(x: seq<bool>) returns (s: string)
    ensures s == FastEncoding(x)
  {
    var ones := Ones(x);
    var out: seq<nat> := [];
    var prev: int := -2;
    for j := 0 to |ones|
      invariant prev == if j == 0 then -2 else ones[j - 1]
      invariant out == FastPairs(ones[..j])
    {
      var b := ones[j];
      FastLoopStep(ones, j, out, prev);
      if b > prev + 1 {
        out := out + [b + 1, 0];
      }
      out := out[..|out| - 1] + [out[|out| - 1] + 1];
      prev := b;
    }
    assert ones[..|ones|] == ones;
    FastPairsOnes(x);
    s := Join(Strs(out));
  }

  // ===========================================================================
  // rle_encode(x, mode) for any other mode: the reference scan
  // ===========================================================================

  /** The pair list of the runs of `y`, without the length of a run still open at its end. */
  function OpenTokens(y: seq<bool>): (t: seq<nat>)
    ensures |y| > 0 && y[0] ==> |t| >= 1
  {
    var f := Flat(Runs(y));
    if |y| > 0 && y[|y| - 1] then f[..|f| - 1] else f
  }

  /** The length of the run still open at the end of `y`, or 0 when `y` ends in background. */
  function OpenLength(y: seq<bool>): nat
  {
    if |y| > 0 && y[|y| - 1] then Runs(y)[|Runs(y)| - 1].length else 0
  }

  /** Closing the open run gives back the whole pair list. */
  lemma {:induction false} OpenClose(y: seq<bool>)
    ensures |y| > 0 && y[|y| - 1] ==> OpenLength(y) >= 1
    ensures Flat(Runs(y)) == OpenTokens(y) + (if |y| > 0 && y[|y| - 1] then [OpenLength(y)] else [])
  {
    if |y| > 0 && y[|y| - 1] {
      var rs := Runs(y);
      var f := Flat(rs);
      assert f == Flat(rs[..|rs| - 1]) + [rs[|rs| - 1].start, rs[|rs| - 1].length];
      assert f == f[..|f| - 1] + [f[|f| - 1]];
    }
  }

  /**
   * The numbers the reference scan has emitted after reading `y`, when it
   * took the pixel before `y[0]` to be `wrap` (`x[i - 1]` at i = 0 is the
   * last pixel of the mask).
   */
  function ScanTokens(y: seq<bool>, wrap: bool): seq<nat>
  {
    var t := OpenTokens(y);
    if !wrap || |y| == 0 then t
    else if y[0] then t[1..]
    else [0] + t
  }

  /** The pixel the scan compares `y`'s successor with. */
  function Before(y: seq<bool>, wrap: bool): bool
  {
    if |y| == 0 then wrap else y[|y| - 1]
  }

  /** The numbers the reference scan emits for the whole mask. */
  function ReferenceTokens(x: seq<bool>): seq<nat>
  {
    ScanTokens(x, |x| > 0 && x[|x| - 1])
  }

  /** The string `rle_encode` returns in the reference mode. */
  function ReferenceEncoding(x: seq<bool>): string
  {
    Join(Strs(ReferenceTokens(x)))
  }

  /** A foreground pixel: a run opens at it exactly when the pixel before is background. */
  lemma {:induction false} OpenForeground(y: seq<bool>)
    ensures OpenLength(y + [true]) == OpenLength(y) + 1
    ensures |y| > 0 && y[|y| - 1] ==> OpenTokens(y + [true]) == OpenTokens(y)
    ensures !(|y| > 0 && y[|y| - 1]) ==> OpenTokens(y + [true]) == OpenTokens(y) + [|y| + 1]
  {
    var y' := y + [true];
    var grow := |y| > 0 && y[|y| - 1];
    var rs := Runs(y);
    var f := Flat(rs);
    RunsSnocForeground(y);
    FlatExtend(rs, |y|, grow);
    var f' := Flat(Runs(y'));
    assert f' == PairsStep(f, |y|, grow);
    assert y'[|y'| - 1];
    assert OpenTokens(y') == f'[..|f'| - 1];
    if grow {
      assert OpenTokens(y) == f[..|f| - 1];
      assert f'[..|f'| - 1] == f[..|f| - 1];
    } else {
      assert OpenTokens(y) == f;
      assert f'[..|f'| - 1] == f + [|y| + 1];
    }
  }

  /** A foreground pixel: a start is emitted exactly when the pixel before is background. */
  lemma {:induction false} ScanForeground(y: seq<bool>, wrap: bool)
    ensures OpenLength(y + [true]) == OpenLength(y) + 1
    ensures ScanTokens(y + [true], wrap) ==
      ScanTokens(y, wrap) + (if Before(y, wrap) then [] else [|y| + 1])
  {
    var y' := y + [true];
    OpenForeground(y);
    var t := OpenTokens(y);
    var t' := OpenTokens(y');
    if |y| == 0 {
      assert t == [] && t' == [1];
    } else {
      assert y'[0] == y[0];
      if y[|y| - 1] {
        assert t' == t;
      } else {
        assert t' == t + [|y| + 1];
        if wrap && y[0] {
          assert t'[1..] == t[1..] + [|y| + 1];
        }
      }
    }
  }

  /** A background pixel: the open length is emitted exactly when the pixel before is foreground. */
  lemma {:induction false} ScanBackground(y: seq<bool>, wrap: bool)
    ensures OpenLength(y + [false]) == 0
    ensures ScanTokens(y + [false], wrap) ==
      ScanTokens(y, wrap) + (if Before(y, wrap) then [OpenLength(y)] else [])
  {
    var y' := y + [false];
    RunsSnoc(y, false);
    OpenClose(y);
    var t := OpenTokens(y);
    assert OpenTokens(y') == Flat(Runs(y));
    assert |y| > 0 ==> y'[0] == y[0];
    if |y| > 0 && y[|y| - 1] && wrap && y[0] {
      assert (t + [OpenLength(y)])[1..] == t[1..] + [OpenLength(y)];
    }
  }

  /** `str(v)` for a list extended by one number. */
  lemma {:induction false} StrsSnoc(vs: seq<int>, v: int)
    ensures Strs(vs + [v]) == Strs(vs) + [IntToString(v)]
  {
  }

  /** One iteration of the reference loop keeps the emitted tokens and the counter in step with the scan. */
  lemma {:induction false} ReferenceLoopStep(y: seq<bool>, x1: bool, wrap: bool, out: seq<string>, cnt: nat)
    requires out == Strs(ScanTokens(y, wrap)) && cnt == OpenLength(y)
    ensures var before := Before(y, wrap);
      var out' := if x1 && !before then out + [IntToString(|y| + 1)]
                  else if !x1 && before then out + [IntToString(cnt)] else out;
      var cnt' := if x1 then cnt + 1 else if before then 0 else cnt;
      out' == Strs(ScanTokens(y + [x1], wrap)) && cnt' == OpenLength(y + [x1])
  {
    if x1 {
      ScanForeground(y, wrap);
      StrsSnoc(ScanTokens(y, wrap), |y| + 1);
    } else {
      ScanBackground(y, wrap);
      StrsSnoc(ScanTokens(y, wrap), cnt);
    }
  }

  /**
   * `rle_encode(x, mode)` for a mode other than 'faster' and 'fast': a scan
   * comparing each pixel with the one before it, where the pixel before the
   * first is the last (`x[i - 1]` at i = 0). A start is emitted when a run
   * begins and its length when it ends; a run reaching the end of the mask
   * is never closed.
   */
  method EncodeReference(x: seq<bool>) returns (s: string)
    ensures s == ReferenceEncoding(x)
  {
    var out: seq<string> := [];
    var cnt: nat := 0;
    ghost var wrap := |x| > 0 && x[|x| - 1];
    for i := 0 to |x|
      invariant out == Strs(ScanTokens(x[..i], wrap))
      invariant cnt == OpenLength(x[..i])
    {
      var x1 := x[i];
      var before := if i == 0 then x[|x| - 1] else x[i - 1];
      ghost var y := x[..i];
      assert x[..i + 1] == y + [x1];
      assert before == Before(y, wrap);
      ReferenceLoopStep(y, x1, wrap, out, cnt);
      if x1 && !before {
        cnt := cnt + 1;
        out := out + [IntToString(i + 1)];
      } else if x1 && before {
        cnt := cnt + 1;
      } else if !x1 && before {
        out := out + [IntToString(cnt)];
        cnt := 0;
      }
    }
    assert x[..|x|] == x;
    s := Join(out);
  }

  /** When the mask ends in background the reference scan agrees with 'fast'. */
  lemma {:induction false} ReferenceWhenLastBackground(x: seq<bool>)
    requires |x| == 0 || !x[|x| - 1]
    ensures ReferenceEncoding(x) == FastEncoding(x)
  {
  }

  /**
   * When the mask ends in foreground the reference scan loses the length of
   * the last run, and it either drops the start of the first run (the mask
   * starts in foreground) or emits a spurious 0 first (it does not).
   */
  lemma {:induction false} ReferenceWhenLastForeground(x: seq<bool>)
    requires |x| > 0 && x[|x| - 1]
    ensures var f := Flat(Runs(x));
      (|f| >= 2 && ReferenceTokens(x) == if x[0] then f[1..|f| - 1] else [0] + f[..|f| - 1])
  {
    var f := Flat(Runs(x));
    var t := OpenTokens(x);
    assert t == f[..|f| - 1];
    if x[0] {
      assert t[1..] == f[1..|f| - 1];
    }
  }

  /** An all-foreground mask is encoded as the empty string by the reference scan. */
  lemma {:induction false} ReferenceAllForeground(x: seq<bool>)
    requires |x| >= 1 && forall k :: 0 <= k < |x| ==> x[k]
    ensures ReferenceEncoding(x) == ""
  {
    RunsAllForeground(x);
    assert Flat([Run(1, |x|)]) == [1, |x|];
    ReferenceWhenLastForeground(x);
    assert ReferenceTokens(x) == [];
  }

  /** A one-pixel foreground mask: the reference scan gives "" where 'fast' gives "1 1". */
  lemma {:induction false} ReferenceSinglePixel()
    ensures ReferenceEncoding([true]) == "" && FastEncoding([true]) == "1 1"
  {
    ReferenceAllForeground([true]);
    FastEncodingAllForeground([true]);
    assert NatToString(1) == "1";
  }

  /**
   * The reference scan as evidently intended: the pixel before the first
   * counts as background, and a run still open at the end is closed. It
   * yields the pair list of the runs, as the 'fast' mode does.
   */
  method EncodeReferenceIntended(x: seq<bool>) returns (s: string)
    ensures s == FastEncoding(x)
  {
    var out: seq<string> := [];
    var cnt: nat := 0;
    for i := 0 to |x|
      invariant out == Strs(ScanTokens(x[..i], false))
      invariant cnt == OpenLength(x[..i])
    {
      var x1 := x[i];
      var before := i > 0 && x[i - 1];
      ghost var y := x[..i];
      assert x[..i + 1] == y + [x1];
      assert before == Before(y, false);
      if x1 {
        ScanForeground(y, false);
      } else {
        ScanBackground(y, false);
      }
      if x1 && !before {
        cnt := cnt + 1;
        StrsSnoc(ScanTokens(y, false), i + 1);
        out := out + [IntToString(i + 1)];
      } else if x1 && before {
        cnt := cnt + 1;
      } else if !x1 && before {
        StrsSnoc(ScanTokens(y, false), cnt);
        out := out + [IntToString(cnt)];
        cnt := 0;
      }
    }
    assert x[..|x|] == x;
    OpenClose(x);
    if cnt > 0 {
      StrsSnoc(OpenTokens(x), cnt);
      out := out + [IntToString(cnt)];
    }
    s := Join(out);
  }

  // ===========================================================================
  // rle_encode(x, 'faster')
  // ===========================================================================

  /** `x[0] = 0; x[-1] = 0` on the mask's own copy: both ends forced to background. */
  function Guard(x: seq<bool>): (g: seq<bool>)
    requires |x| > 0
    ensures |g| == |x| && !g[0] && !g[|g| - 1]
    ensures forall k :: 0 < k < |x| - 1 ==> g[k] == x[k]
  {
    x[0 := false][|x| - 1 := false]
  }

  /** `np.where(y[1:] != y[:-1])[0] + 2`: the 1-based positions where the value changes. */
  function Transitions(y: seq<bool>): seq<nat>
    decreases |y|
  {
    if |y| <= 1 then []
    else Transitions(y[..|y| - 1]) + (if y[|y| - 1] != y[|y| - 2] then [|y|] else [])
  }

  /** `runs[1::2] = runs[1::2] - runs[:-1:2]`: each odd entry becomes its distance from the one before. */
  function PairUp(t: seq<nat>): (p: seq<int>)
    ensures |p| == |t|
  {
    seq(|t|, k requires 0 <= k < |t| => if k % 2 == 1 then t[k] as int - t[k - 1] else t[k])
  }

  /** The `runs` array the 'faster' mode computes. */
  function FasterRuns(x: seq<bool>): seq<int>
    requires |x| > 0
  {
    PairUp(Transitions(Guard(x)))
  }

  /**
   * What `rle_encode(x, mode='faster')` returns: `x[0]` raises IndexError on
   * an empty mask; otherwise `runs` is computed but never copied into `out`,
   * so the result is the empty string.
   */
  function FasterEncoding(x: seq<bool>): Result<string, PyError>
  {
    if |x| == 0 then Err(IndexError) else Ok(Join([]))
  }

  /** `x[0] = 0; x[-1] = 0` on the encoder's own copy of the mask. */
  method GuardInPlace(a: array<bool>)
    requires a.Length > 0
    modifies a
    ensures a[..] == Guard(old(a[..]))
  {
    a[0] := false;
    a[a.Length - 1] := false;
  }

  /**
   * `rle_encode(x, mode='faster')`: copy the mask, zero both ends in place
   * and compute `runs` from the copy. `runs` is the pair list of the runs
   * of the guarded mask, but the result stays the join of the empty `out`.
   */
  method EncodeFaster(x: seq<bool>) returns (r: Result<string, PyError>, ghost runs: seq<int>)
    ensures r == FasterEncoding(x)
    ensures |x| > 0 ==> runs == Flat(Runs(Guard(x)))
  {
    var out: seq<string> := [];
    var a := new bool[|x|](k requires 0 <= k < |x| => x[k]);
    assert a[..] == x;
    if a.Length == 0 {
      return Err(IndexError), [];
    }
    GuardInPlace(a);
    var t := Transitions(a[..]);
    runs := PairUp(t);
    FasterRunsAreGuardedRuns(x);
    r := Ok(Join(out));
  }

  lemma {:induction false} TransitionsSnoc(y: seq<bool>, c: bool)
    requires |y| >= 1
    ensures Transitions(y + [c]) == Transitions(y) + (if c != y[|y| - 1] then [|y| + 1] else [])
  {
    var y' := y + [c];
    assert y'[..|y'| - 1] == y;
    assert y'[|y'| - 2] == y[|y| - 1];
  }

  lemma {:induction false} PairUpSnoc(t: seq<nat>, v: nat)
    ensures PairUp(t + [v]) == PairUp(t) + [if |t| % 2 == 1 then v as int - t[|t| - 1] else v]
  {
    var p := PairUp(t + [v]);
    assert forall k :: 0 <= k < |t| ==> p[k] == PairUp(t)[k];
  }

  /**
   * On a mask starting in background, the paired-up transitions are the
   * pair list of the runs, except for the length of a run still open at
   * the end, whose start is the last transition.
   */
  ghost predicate TransitionsPairUp(y: seq<bool>)
    requires |y| >= 1
  {
    var t := Transitions(y);
    |t| % 2 == (if y[|y| - 1] then 1 else 0) &&
    PairUp(t) == OpenTokens(y) &&
    (y[|y| - 1] ==> |t| > 0 && t[|t| - 1] == Runs(y)[|Runs(y)| - 1].start)
  }

  /** A run opens: the new transition is its start. */
  lemma {:induction false} TransitionsOpen(z: seq<bool>)
    requires |z| >= 1 && !z[|z| - 1] && TransitionsPairUp(z)
    ensures TransitionsPairUp(z + [true])
  {
    var z' := z + [true];
    var t := Transitions(z);
    var t' := Transitions(z');
    TransitionsSnoc(z, true);
    assert t' == t + [|z| + 1];
    assert |t| % 2 == 0 && PairUp(t) == OpenTokens(z);
    PairUpSnoc(t, |z| + 1);
    OpenForeground(z);
    assert PairUp(t') == OpenTokens(z');
    RunsSnocForeground(z);
    var rs' := Runs(z');
    assert rs' == Runs(z) + [Run(|z| + 1, 1)];
    assert t'[|t'| - 1] == rs'[|rs'| - 1].start;
    assert z'[|z'| - 1] && |t'| % 2 == 1 && |t'| > 0;
  }

  /** A run grows: the transitions stay. */
  lemma {:induction false} TransitionsGrow(z: seq<bool>)
    requires |z| >= 1 && z[|z| - 1] && TransitionsPairUp(z)
    ensures TransitionsPairUp(z + [true])
  {
    var z' := z + [true];
    TransitionsSnoc(z, true);
    assert Transitions(z') == Transitions(z);
    RunsSnocForeground(z);
    OpenForeground(z);
    assert OpenTokens(z') == OpenTokens(z);
    var rs := Runs(z);
    assert Runs(z')[|rs| - 1].start == rs[|rs| - 1].start;
  }

  /** A run closes: the new transition minus the start is its length. */
  lemma {:induction false} TransitionsClose(z: seq<bool>)
    requires |z| >= 1 && z[|z| - 1] && TransitionsPairUp(z)
    ensures TransitionsPairUp(z + [false])
  {
    var t := Transitions(z);
    TransitionsSnoc(z, false);
    RunsSnoc(z, false);
    ScanBackground(z, false);
    OpenClose(z);
    PairUpSnoc(t, |z| + 1);
    var r := Runs(z)[|Runs(z)| - 1];
    assert |z| + 1 - r.start == r.length;
  }

  /** Background stays background: nothing changes. */
  lemma {:induction false} TransitionsStay(z: seq<bool>)
    requires |z| >= 1 && !z[|z| - 1] && TransitionsPairUp(z)
    ensures TransitionsPairUp(z + [false])
  {
    TransitionsSnoc(z, false);
    RunsSnoc(z, false);
    ScanBackground(z, false);
  }

  lemma {:induction false} PairUpTransitions(y: seq<bool>)
    requires |y| >= 1 && !y[0]
    ensures TransitionsPairUp(y)
    decreases |y|
  {
    if |y| > 1 {
      var z := y[..|y| - 1];
      var c := y[|y| - 1];
      assert y == z + [c];
      assert z[0] == y[0];
      PairUpTransitions(z);
      if c && z[|z| - 1] {
        TransitionsGrow(z);
      } else if c {
        TransitionsOpen(z);
      } else if z[|z| - 1] {
        TransitionsClose(z);
      } else {
        TransitionsStay(z);
      }
    } else {
      assert Runs(y) == [] by {
        assert y[..0] == [];
      }
    }
  }

  /** The 'faster' `runs` are the pair list of the runs of the guarded mask. */
  lemma {:induction false} FasterRunsAreGuardedRuns(x: seq<bool>)
    requires |x| > 0
    ensures FasterRuns(x) == Flat(Runs(Guard(x)))
  {
    var g := Guard(x);
    PairUpTransitions(g);
    assert OpenTokens(g) == Flat(Runs(g));
  }

  /**
   * On [0, 1, 0] the 'faster' mode returns "" while 'fast' returns "2 1".
   * In general FasterEncoding, which EncodeFaster returns, is "" on every non-empty mask.
   */
  lemma {:induction false} FasterDropsRuns()
    ensures FasterEncoding([false, true, false]) == Ok("")
    ensures FastEncoding([false, true, false]) == "2 1"
  {
    var x := [false, true, false];
    assert x[..2][..1] == [false];
    assert Runs([false]) == [];
    assert x[..2] == [false] + [true];
    RunsSnoc([false], true);
    assert Runs(x[..2]) == [Run(2, 1)];
    assert Runs(x) == [Run(2, 1)];
    assert Flat([Run(2, 1)]) == [2, 1];
    assert NatToString(2) == "2" && NatToString(1) == "1";
    assert Strs([2, 1]) == [IntToString(2), IntToString(1)];
    JoinPair("2", "1");
  }

  /** The 'faster' mode as evidently intended: the space-joined `runs`. */
  function EncodeFasterIntended(x: seq<bool>): (r: Result<string, PyError>)
    ensures |x| == 0 <==> r == Err(IndexError)
    ensures |x| > 0 ==> r == Ok(FastEncoding(Guard(x)))
    ensures |x| > 0 && !x[0] && !x[|x| - 1] ==> r == Ok(FastEncoding(x))
  {
    if |x| == 0 then Err(IndexError)
    else
      FasterRunsAreGuardedRuns(x);
      assert !x[0] && !x[|x| - 1] ==> Guard(x) == x;
      Ok(Join(Strs(FasterRuns(x))))
  }

  // ===========================================================================
  // rle_encode(x, mode)
  // ===========================================================================

  /** What `rle_encode(x, mode)` returns, mode by mode. */
  function Encoding(x: seq<bool>, mode: string): Result<string, PyError>
  {
    if mode == "faster" then FasterEncoding(x)
    else if mode == "fast" then Ok(FastEncoding(x))
    else Ok(ReferenceEncoding(x))
  }

  /** `rle_encode(x, mode)` on an already-binary mask. */
  method RleEncode(x: seq<bool>, mode: string) returns (r: Result<string, PyError>)
    ensures r == Encoding(x, mode)
  {
    if mode == "faster" {
      ghost var runs;
      r, runs := EncodeFaster(x);
    } else if mode == "fast" {
      var s := EncodeFast(x);
      r := Ok(s);
    } else {
      var s := EncodeReference(x);
      r := Ok(s);
    }
  }

  /** The three modes on a mask whose first and last pixels are background. */
  lemma {:induction false} ModesOnGuardedMask(x: seq<bool>)
    requires |x| > 0 && !x[0] && !x[|x| - 1]
    ensures Encoding(x, "fast") == Ok(FastEncoding(x))
    ensures Encoding(x, "reference") == Ok(FastEncoding(x))
    ensures Encoding(x, "faster") == Ok("")
  {
    ReferenceWhenLastBackground(x);
  }
}

// The batch generators of utils.py: DataIterator, its subclass DataGenerator
// and the module-level data_gen. Each yields windows of `batch_size` keys,
// loading the image (and, when training, the mask) of every key into a row
// of a preallocated buffer.

module Batches {
  import opened Wrappers

  /**
   * A buffer row. Image loading is not modelled: a loaded row is the
   * symbolic result of `load_img(path, grayscale=g, target_size=s)`.
   */
  datatype Image =
    | Zeros                                                   // a row of np.zeros
    | Loaded(path: string, grayscale: bool, size: (int, int)) // load_img(path, ...)
    | Scaled(img: Image)                                      // a row of `batch_y / 255.`

  /** `fn_dict`: each key to [image path, mask path]. */
  type FnDict = map<string, seq<string>>

  /** What one `next()` hands back. */
  datatype Batch =
    | Pair(x: seq<Image>, y: seq<Image>) // (batch_x, batch_y / 255.)
    | NoMask(x: seq<Image>)              // (batch_x, None)
    | Bare(x: seq<Image>)                // batch_x alone

  function Min(a: int, b: int): int
  {
    if a <= b then a else b
  }

  /** `fns[idx:(idx + bs)]` for a non-negative cursor: clipped at the end of `fns`. */
  function Window(fns: seq<string>, idx: nat, bs: nat): (w: seq<string>)
    ensures |w| <= bs
  {
    if idx >= |fns| then [] else fns[idx..Min(idx + bs, |fns|)]
  }

  /** `batch_y / 255.`, a new array; the pixel scaling itself is not modelled. */
  function Scale(ys: seq<Image>): (s: seq<Image>)
    ensures |s| == |ys|
  {
    seq(|ys|, i requires 0 <= i < |ys| => Scaled(ys[i]))
  }

  // ---------------------------------------------------------------------------
  // Filling the buffers for one window
  // ---------------------------------------------------------------------------

  /** `fn_dict[fn][0]` and, when training, `fn_dict[fn][1]` exist. */
  predicate RowLoads(d: FnDict, fn: string, train: bool)
  {
    fn in d && |d[fn]| >= 1 && (train ==> |d[fn]| >= 2)
  }

  /** The exception a failing lookup raises: KeyError for a missing key, IndexError for a short list. */
  function RowError(d: FnDict, fn: string): PyError
  {
    if fn !in d then KeyError else IndexError
  }

  function ImageOf(d: FnDict, fn: string, gray: bool, size: (int, int)): Image
    requires fn in d && |d[fn]| >= 1
  {
    Loaded(d[fn][0], gray, size)
  }

  /** Masks are always loaded as grayscale. */
  function MaskOf(d: FnDict, fn: string, size: (int, int)): Image
    requires fn in d && |d[fn]| >= 2
  {
    Loaded(d[fn][1], true, size)
  }

  datatype Buffers = Buffers(xs: seq<Image>, ys: seq<Image>)

  datatype Filled =
    | Done(b: Buffers)
    | Failed(e: PyError, b: Buffers) // the exception, and the rows written before it

  /** One iteration of the loop: row i gets key fn's image and, when training, its mask. */
  function FillRow(b: Buffers, i: nat, fn: string, d: FnDict, gray: bool, size: (int, int), train: bool): (f: Filled)
    requires i < |b.xs| && i < |b.ys|
    ensures |f.b.xs| == |b.xs| && |f.b.ys| == |b.ys|
  {
    if !RowLoads(d, fn, train) then Failed(RowError(d, fn), b)
    else Done(Buffers(b.xs[i := ImageOf(d, fn, gray, size)],
                      if train then b.ys[i := MaskOf(d, fn, size)] else b.ys))
  }

  /** The loop `for i, fn in enumerate(w)` over the buffers, stopped by the first exception. */
  function Fill(w: seq<string>, d: FnDict, gray: bool, size: (int, int), train: bool, b: Buffers): (f: Filled)
    requires |w| <= |b.xs| && |w| <= |b.ys|
    ensures |f.b.xs| == |b.xs| && |f.b.ys| == |b.ys|
    decreases |w|
  {
    if |w| == 0 then Done(b)
    else
      var f := Fill(w[..|w| - 1], d, gray, size, train, b);
      if f.Failed? then f else FillRow(f.b, |w| - 1, w[|w| - 1], d, gray, size, train)
  }

  /**
   * `b'` is `b` with rows 0..k-1 holding the images (and, when training,
   * the masks) of keys w[0..k-1] and every other row untouched.
   */
  ghost predicate RowsWritten(b': Buffers, b: Buffers, w: seq<string>, k: nat,
                              d: FnDict, gray: bool, size: (int, int), train: bool)
  {
    && |b'.xs| == |b.xs| && |b'.ys| == |b.ys| && k <= |w| && k <= |b.xs| && k <= |b.ys|
    && (forall i :: 0 <= i < k ==> RowLoads(d, w[i], train) && b'.xs[i] == ImageOf(d, w[i], gray, size))
    && (forall i :: 0 <= i < k && train ==> RowLoads(d, w[i], train) && b'.ys[i] == MaskOf(d, w[i], size))
    && (forall i :: k <= i < |b.xs| ==> b'.xs[i] == b.xs[i])
    && (forall i :: k <= i < |b.ys| ==> b'.ys[i] == b.ys[i])
    && (!train ==> b'.ys == b.ys)
  }

  lemma {:induction false} RowsWrittenPrefix(b': Buffers, b: Buffers, w: seq<string>, n: nat, k: nat,
                                             d: FnDict, gray: bool, size: (int, int), train: bool)
    requires k <= n <= |w|
    requires RowsWritten(b', b, w[..n], k, d, gray, size, train)
    ensures RowsWritten(b', b, w, k, d, gray, size, train)
  {
    forall i | 0 <= i < k ensures w[..n][i] == w[i] { }
  }

  lemma {:induction false} RowsWrittenStep(b': Buffers, b: Buffers, w: seq<string>, k: nat,
                                           d: FnDict, gray: bool, size: (int, int), train: bool)
    requires k < |w| && k < |b.xs| && k < |b.ys|
    requires RowsWritten(b', b, w[..k], k, d, gray, size, train)
    requires RowLoads(d, w[k], train)
    ensures RowsWritten(FillRow(b', k, w[k], d, gray, size, train).b, b, w, k + 1, d, gray, size, train)
  {
    RowsWrittenPrefix(b', b, w, k, k, d, gray, size, train);
  }

  /** Key w[k] is the first whose lookups fail: rows 0..k-1 are written, and its exception is raised. */
  ghost predicate FailsAt(f: Filled, b: Buffers, w: seq<string>, k: nat,
                          d: FnDict, gray: bool, size: (int, int), train: bool)
  {
    f.Failed? && k < |w| && RowsWritten(f.b, b, w, k, d, gray, size, train)
    && !RowLoads(d, w[k], train) && f.e == RowError(d, w[k])
  }

  lemma {:induction false} FailsAtPrefix(f: Filled, b: Buffers, w: seq<string>, n: nat, k: nat,
                                         d: FnDict, gray: bool, size: (int, int), train: bool)
    requires n <= |w| && FailsAt(f, b, w[..n], k, d, gray, size, train)
    ensures FailsAt(f, b, w, k, d, gray, size, train)
  {
    RowsWrittenPrefix(f.b, b, w, n, k, d, gray, size, train);
    assert w[..n][k] == w[k];
  }

  /**
   * The loop writes the rows of the window's keys in order and leaves every
   * other row alone. It completes iff every key's lookups succeed; otherwise
   * the first failing key k raises, with rows 0..k-1 already overwritten.
   */
  lemma {:induction false} FillRows(w: seq<string>, d: FnDict, gray: bool, size: (int, int), train: bool, b: Buffers)
    requires |w| <= |b.xs| && |w| <= |b.ys|
    ensures var f := Fill(w, d, gray, size, train, b);
      f.Done? ==> RowsWritten(f.b, b, w, |w|, d, gray, size, train)
    ensures var f := Fill(w, d, gray, size, train, b);
      f.Failed? ==> exists k :: FailsAt(f, b, w, k, d, gray, size, train)
    decreases |w|
  {
    var n := |w|;
    if n > 0 {
      var w' := w[..n - 1];
      var f0 := Fill(w', d, gray, size, train, b);
      FillRows(w', d, gray, size, train, b);
      assert Fill(w, d, gray, size, train, b) ==
        if f0.Failed? then f0 else FillRow(f0.b, n - 1, w[n - 1], d, gray, size, train);
      if f0.Failed? {
        var k :| FailsAt(f0, b, w', k, d, gray, size, train);
        FailsAtPrefix(f0, b, w, n - 1, k, d, gray, size, train);
      } else if RowLoads(d, w[n - 1], train) {
        RowsWrittenStep(f0.b, b, w, n - 1, d, gray, size, train);
      } else {
        RowsWrittenPrefix(f0.b, b, w, n - 1, n - 1, d, gray, size, train);
        assert FailsAt(Fill(w, d, gray, size, train, b), b, w, n - 1, d, gray, size, train);
      }
    } else {
      assert RowsWritten(b, b, w, 0, d, gray, size, train);
    }
  }

  /** The loop completes exactly when every key of the window has its paths. */
  lemma {:induction false} FillDoneIff(w: seq<string>, d: FnDict, gray: bool, size: (int, int), train: bool, b: Buffers)
    requires |w| <= |b.xs| && |w| <= |b.ys|
    ensures Fill(w, d, gray, size, train, b).Done? <==> forall i :: 0 <= i < |w| ==> RowLoads(d, w[i], train)
  {
    FillRows(w, d, gray, size, train, b);
  }

  /** Once an iteration has raised, the longer loop raises the same exception on the same rows. */
  lemma {:induction false} FillFailedStays(w: seq<string>, k: nat, d: FnDict, gray: bool, size: (int, int), train: bool, b: Buffers)
    requires k <= |w| <= |b.xs| && |w| <= |b.ys|
    requires Fill(w[..k], d, gray, size, train, b).Failed?
    ensures Fill(w, d, gray, size, train, b) == Fill(w[..k], d, gray, size, train, b)
    decreases |w| - k
  {
    if k < |w| {
      assert w[..|w|][..k] == w[..k];
      var n := |w|;
      if k < n - 1 {
        assert w[..n - 1][..k] == w[..k];
        FillFailedStays(w[..n - 1], k, d, gray, size, train, b);
      } else {
        assert w[..n - 1] == w[..k];
      }
    } else {
      assert w[..k] == w;
    }
  }

  /** The loop over `w` on the buffers `bufX` and `bufY`, in place. */
  method FillBatch(bufX: array<Image>, bufY: array<Image>, w: seq<string>, d: FnDict,
                   gray: bool, size: (int, int), train: bool) returns (err: Option<PyError>)
    requires bufX != bufY && |w| <= bufX.Length && |w| <= bufY.Length
    modifies bufX, bufY
    ensures Fill(w, d, gray, size, train, Buffers(old(bufX[..]), old(bufY[..]))) ==
      if err.None? then Done(Buffers(bufX[..], bufY[..])) else Failed(err.value, Buffers(bufX[..], bufY[..]))
  {
    ghost var b0 := Buffers(bufX[..], bufY[..]);
    for i := 0 to |w|
      invariant Fill(w[..i], d, gray, size, train, b0) == Done(Buffers(bufX[..], bufY[..]))
    {
      assert w[..i + 1][..i] == w[..i];
      ghost var cur := Buffers(bufX[..], bufY[..]);
      var fn := w[i];
      if fn !in d || |d[fn]| < 1 || (train && |d[fn]| < 2) {
        FillFailedStays(w, i + 1, d, gray, size, train, b0);
        return Some(if fn !in d then KeyError else IndexError);
      }
      var img := Loaded(d[fn][0], gray, size);
      if train {
        var mask := Loaded(d[fn][1], true, size);
        bufX[i] := img;
        bufY[i] := mask;
      } else {
        bufX[i] := img;
      }
      assert Buffers(bufX[..], bufY[..]) == FillRow(cur, i, fn, d, gray, size, train).b;
    }
    assert w[..|w|] == w;
    return None;
  }

  // ---------------------------------------------------------------------------
  // Windows across calls
  // ---------------------------------------------------------------------------

  lemma {:induction false} MulStep(a: nat, c: nat)
    ensures (a + 1) * c == a * c + c
  {
  }

  lemma {:induction false} MulMonotone(a: nat, b: nat, c: nat)
    requires a <= b
    ensures a * c <= b * c
    decreases b - a
  {
    if a < b {
      MulMonotone(a, b - 1, c);
      MulStep(b - 1, c);
    }
  }

  /** The keys of the first k windows of width bs, in order. */
  function Walked(fns: seq<string>, bs: nat, k: nat): seq<string>
    decreases k
  {
    if k == 0 then [] else Walked(fns, bs, k - 1) + Window(fns, (k - 1) * bs, bs)
  }

  /** Consecutive windows concatenate to a prefix of `fns`: the first k cover `fns[:k * bs]`. */
  lemma {:induction false} WalkedPrefix(fns: seq<string>, bs: nat, k: nat)
    ensures Walked(fns, bs, k) == fns[..Min(k * bs, |fns|)]
    decreases k
  {
    if k > 0 {
      WalkedPrefix(fns, bs, k - 1);
      var a := (k - 1) * bs;
      MulStep(k - 1, bs);
      var p := Min(a, |fns|);
      var q := Min(a + bs, |fns|);
      assert Min(k * bs, |fns|) == q;
      if a < |fns| {
        assert Window(fns, a, bs) == fns[p..q];
        assert fns[..p] + fns[p..q] == fns[..q];
      } else {
        assert Window(fns, a, bs) == [] && p == q;
      }
    }
  }

  /** The least number of windows of width bs that covers n keys: `ceil(n / bs)`. */
  function Windows(n: nat, bs: nat): (k: nat)
    requires bs > 0
    ensures k * bs >= n
    ensures k == 0 || (k - 1) * bs < n
  {
    var q := (n + bs - 1) / bs;
    assert n + bs - 1 == q * bs + (n + bs - 1) % bs;
    assert q * bs - bs == (q - 1) * bs;
    q
  }

  /**
   * With windows of width bs > 0, the first `ceil(n / bs)` windows walk all
   * of `fns` exactly once, in order, and every later window is empty.
   */
  lemma {:induction false} WindowsWalkAll(fns: seq<string>, bs: nat, j: nat)
    requires bs > 0
    ensures Walked(fns, bs, Windows(|fns|, bs)) == fns
    ensures j >= Windows(|fns|, bs) ==> Window(fns, j * bs, bs) == []
  {
    var k := Windows(|fns|, bs);
    WalkedPrefix(fns, bs, k);
    assert fns[..|fns|] == fns;
    if j >= k {
      MulMonotone(k, j, bs);
    }
  }

  /**
   * A call made after the first `ceil(n / bs)` has an empty window: it
   * succeeds and leaves every row of both buffers as it was.
   */
  lemma {:induction false} ExhaustedCallKeepsRows(fns: seq<string>, bs: nat, j: nat, d: FnDict,
                                                  gray: bool, size: (int, int), train: bool, b: Buffers)
    requires bs > 0 && j >= Windows(|fns|, bs)
    ensures Window(fns, j * bs, bs) == []
    ensures Fill(Window(fns, j * bs, bs), d, gray, size, train, b) == Done(b)
  {
    WindowsWalkAll(fns, bs, j);
  }

  /** What DataIterator yields: the buffer and either the scaled masks or None. */
  function IteratorBatch(b: Buffers, test: bool): Batch
  {
    if test then NoMask(b.xs) else Pair(b.xs, Scale(b.ys))
  }

  /** What data_gen yields: the buffer and the scaled masks, or the bare buffer in test mode. */
  function GenBatch(b: Buffers, test: bool): Batch
  {
    if test then Bare(b.xs) else Pair(b.xs, Scale(b.ys))
  }

  // ---------------------------------------------------------------------------
  // DataIterator
  // ---------------------------------------------------------------------------

  /**
   * `DataIterator`: `next()` resumes the generator `data_gen`, which keeps a
   * cursor and two buffers across calls. An exception raised inside the
   * generator finishes it, and every later `next()` raises StopIteration.
   */
  class DataIterator {
    const fns: seq<string>
    const fnDict: FnDict
    const targetSize: (int, int)
    const grayscale: bool
    const batchSize: nat
    const dataAug: bool
    const shuffle: bool
    const test: bool
    const batchX: array<Image>
    const batchY: array<Image>
    var idx: nat
    var finished: bool
    ghost var calls: nat

    ghost predicate Valid()
      reads this
    {
      batchX.Length == batchSize && batchY.Length == batchSize && batchX != batchY
      && idx == calls * batchSize
    }

    /** The buffers `data_gen` allocates before its first window: zeros. */
    constructor(fns: seq<string>, fnDict: FnDict, targetSize: (int, int), grayscale: bool,
                batchSize: nat, dataAug: bool, shuffle: bool, test: bool)
      ensures Valid() && fresh(batchX) && fresh(batchY)
      ensures this.fns == fns && this.fnDict == fnDict && this.targetSize == targetSize
      ensures this.grayscale == grayscale && this.batchSize == batchSize && this.dataAug == dataAug
      ensures this.shuffle == shuffle && this.test == test
      ensures idx == 0 && !finished
      ensures batchX[..] == seq(batchSize, i => Zeros) && batchY[..] == seq(batchSize, i => Zeros)
    {
      this.fns := fns;
      this.fnDict := fnDict;
      this.targetSize := targetSize;
      this.grayscale := grayscale;
      this.batchSize := batchSize;
      this.dataAug := dataAug;
      this.shuffle := shuffle;
      this.test := test;
      batchX := new Image[batchSize](i => Zeros);
      batchY := new Image[batchSize](i => Zeros);
      idx := 0;
      finished := false;
      calls := 0;
    }

    /**
     * `__next__`: the window `fns[idx:idx + batch_size]` of the keys as
     * given (`shuffle` only feeds an unused local), written over the
     * buffers' first rows, then `idx += batch_size`.
     */
    method Next() returns (r: Result<Batch, PyError>)
      requires Valid()
      modifies this, batchX, batchY
      ensures Valid()
      ensures old(finished) ==> (r == Err(StopIteration) && finished && idx == old(idx)
                                 && batchX[..] == old(batchX[..]) && batchY[..] == old(batchY[..]))
      ensures !old(finished) ==>
        var f := Fill(Window(fns, old(idx), batchSize), fnDict, grayscale, targetSize, !test,
                      Buffers(old(batchX[..]), old(batchY[..])));
        && batchX[..] == f.b.xs && batchY[..] == f.b.ys
        && (f.Failed? ==> r == Err(f.e) && finished && idx == old(idx))
        && (f.Done? ==> r == Ok(IteratorBatch(f.b, test)) && !finished
                        && idx == old(idx) + batchSize && calls == old(calls) + 1)
    {
      if finished {
        return Err(StopIteration);
      }
      var err := FillBatch(batchX, batchY, Window(fns, idx, batchSize), fnDict, grayscale, targetSize, !test);
      if err.Some? {
        finished := true;
        return Err(err.value);
      }
      MulStep(calls, batchSize);
      idx := idx + batchSize;
      calls := calls + 1;
      if test {
        r := Ok(NoMask(batchX[..]));
      } else {
        r := Ok(Pair(batchX[..], Scale(batchY[..])));
      }
    }
  }

  // ---------------------------------------------------------------------------
  // DataGenerator
  // ---------------------------------------------------------------------------

  /** What `DataGenerator.__next__` returns: the same first window on every call. */
  function FirstBatch(fns: seq<string>, d: FnDict, gray: bool, size: (int, int), bs: nat, test: bool): Result<Batch, PyError>
  {
    var zeros := seq(bs, i => Zeros);
    var f := Fill(Window(fns, 0, bs), d, gray, size, !test, Buffers(zeros, zeros));
    if f.Failed? then Err(f.e) else Ok(GenBatch(f.b, test))
  }

  /**
   * `DataGenerator`: overrides `__next__` with a plain function body that
   * allocates fresh buffers and starts from index 0 on every call.
   */
  class DataGenerator {
    const fns: seq<string>
    const fnDict: FnDict
    const targetSize: (int, int)
    const grayscale: bool
    const batchSize: nat
    const dataAug: bool
    const shuffle: bool
    const test: bool

    constructor(fns: seq<string>, fnDict: FnDict, targetSize: (int, int), grayscale: bool,
                batchSize: nat, dataAug: bool, shuffle: bool, test: bool)
      ensures this.fns == fns && this.fnDict == fnDict && this.targetSize == targetSize
      ensures this.grayscale == grayscale && this.batchSize == batchSize && this.dataAug == dataAug
      ensures this.shuffle == shuffle && this.test == test
    {
      this.fns := fns;
      this.fnDict := fnDict;
      this.targetSize := targetSize;
      this.grayscale := grayscale;
      this.batchSize := batchSize;
      this.dataAug := dataAug;
      this.shuffle := shuffle;
      this.test := test;
    }

    method Next() returns (r: Result<Batch, PyError>)
      ensures r == FirstBatch(fns, fnDict, grayscale, targetSize, batchSize, test)
    {
      var idx := 0;
      var bufX := new Image[batchSize](i => Zeros);
      var bufY := new Image[batchSize](i => Zeros);
      assert bufX[..] == seq(batchSize, i => Zeros) && bufY[..] == seq(batchSize, i => Zeros);
      var err := FillBatch(bufX, bufY, Window(fns, idx, batchSize), fnDict, grayscale, targetSize, !test);
      if err.Some? {
        return Err(err.value);
      }
      if test {
        r := Ok(Bare(bufX[..]));
      } else {
        r := Ok(Pair(bufX[..], Scale(bufY[..])));
      }
    }
  }

  /**
   * Every `DataGenerator.__next__` returns rows for `fns[0:batch_size]`
   * only, zeros below them, and a bare `batch_x` in test mode. In train
   * mode the second component is `batch_y / 255.`: the scaled mask of key i
   * in row i, and scaled zeros below the window.
   */
  lemma {:induction false} FirstBatchRows(fns: seq<string>, d: FnDict, gray: bool, size: (int, int), bs: nat, test: bool)
    requires FirstBatch(fns, d, gray, size, bs, test).Ok?
    ensures var x := FirstBatch(fns, d, gray, size, bs, test).value;
      && x.Bare? == test && x.Pair? == !test && |x.x| == bs
      && (forall i :: 0 <= i < Min(bs, |fns|) ==> fns[i] in d && |d[fns[i]]| >= 1 && x.x[i] == ImageOf(d, fns[i], gray, size))
      && (forall i :: Min(bs, |fns|) <= i < bs ==> x.x[i] == Zeros)
    ensures var x := FirstBatch(fns, d, gray, size, bs, test).value;
      !test ==>
        && |x.y| == bs
        && (forall i :: 0 <= i < Min(bs, |fns|) ==> RowLoads(d, fns[i], true) && x.y[i] == Scaled(MaskOf(d, fns[i], size)))
        && (forall i :: Min(bs, |fns|) <= i < bs ==> x.y[i] == Scaled(Zeros))
  {
    var zeros := seq(bs, i => Zeros);
    var w := Window(fns, 0, bs);
    FillRows(w, d, gray, size, !test, Buffers(zeros, zeros));
    assert |w| == Min(bs, |fns|);
    forall i | 0 <= i < |w| ensures w[i] == fns[i] { }
  }

  // ---------------------------------------------------------------------------
  // data_gen
  // ---------------------------------------------------------------------------

  /**
   * The module-level generator `data_gen`. With `shuffle` it walks the
   * permutation `order` of `fns` (`np.random.permutation`, taken as an
   * input); its test branch yields `batch_x` alone.
   */
  class DataGen {
    const fns: seq<string>
    const fnDict: FnDict
    const targetSize: (int, int)
    const grayscale: bool
    const batchSize: nat
    const test: bool
    const batchX: array<Image>
    const batchY: array<Image>
    var idx: nat
    var finished: bool
    ghost var calls: nat

    ghost predicate Valid()
      reads this
    {
      batchX.Length == batchSize && batchY.Length == batchSize && batchX != batchY
      && idx == calls * batchSize
    }

    constructor(fns: seq<string>, fnDict: FnDict, order: seq<string>, targetSize: (int, int),
                grayscale: bool, batchSize: nat, dataAug: bool, shuffle: bool, test: bool)
      requires shuffle ==> multiset(order) == multiset(fns)
      ensures Valid() && fresh(batchX) && fresh(batchY)
      ensures this.fns == (if shuffle then order else fns)
      ensures multiset(this.fns) == multiset(fns)
      ensures this.fnDict == fnDict && this.targetSize == targetSize && this.grayscale == grayscale
      ensures this.batchSize == batchSize && this.test == test
      ensures idx == 0 && !finished
      ensures batchX[..] == seq(batchSize, i => Zeros) && batchY[..] == seq(batchSize, i => Zeros)
    {
      this.fns := if shuffle then order else fns;
      this.fnDict := fnDict;
      this.targetSize := targetSize;
      this.grayscale := grayscale;
      this.batchSize := batchSize;
      this.test := test;
      batchX := new Image[batchSize](i => Zeros);
      batchY := new Image[batchSize](i => Zeros);
      idx := 0;
      finished := false;
      calls := 0;
    }

    method Next() returns (r: Result<Batch, PyError>)
      requires Valid()
      modifies this, batchX, batchY
      ensures Valid()
      ensures old(finished) ==> (r == Err(StopIteration) && finished && idx == old(idx)
                                 && batchX[..] == old(batchX[..]) && batchY[..] == old(batchY[..]))
      ensures !old(finished) ==>
        var f := Fill(Window(fns, old(idx), batchSize), fnDict, grayscale, targetSize, !test,
                      Buffers(old(batchX[..]), old(batchY[..])));
        && batchX[..] == f.b.xs && batchY[..] == f.b.ys
        && (f.Failed? ==> r == Err(f.e) && finished && idx == old(idx))
        && (f.Done? ==> r == Ok(GenBatch(f.b, test)) && !finished
                        && idx == old(idx) + batchSize && calls == old(calls) + 1)
    {
      if finished {
        return Err(StopIteration);
      }
      var err := FillBatch(batchX, batchY, Window(fns, idx, batchSize), fnDict, grayscale, targetSize, !test);
      if err.Some? {
        finished := true;
        return Err(err.value);
      }
      MulStep(calls, batchSize);
      idx := idx + batchSize;
      calls := calls + 1;
      if test {
        r := Ok(Bare(batchX[..]));
      } else {
        r := Ok(Pair(batchX[..], Scale(batchY[..])));
      }
    }
  }
}

// rle_decode: from the space-separated "start length" pair list back to a
// height x width mask.

module RleDecoding {
  import opened Wrappers
  import opened Strings
  import opened Rle

  /** One `img[pos:pos + num] = 1` assignment: `pos` is already 0-based. */
  datatype Slice = Slice(pos: int, num: int)

  /** Python's normalisation of a bound `i` of a step-1 slice of a length-n sequence. */
  function SliceIndex(i: int, n: nat): (j: nat)
    ensures j <= n
    ensures 0 <= i <= n ==> j == i
    ensures -(n as int) <= i < 0 ==> j as int == i + n
    ensures i > n ==> j == n
    ensures i < -(n as int) ==> j == 0
  {
    if i < 0 then (if i + n < 0 then 0 else i + n) else if i > n then n else i
  }

  /** Pixel k of an n-pixel image is one that `img[s.pos:s.pos + s.num] = 1` sets. */
  predicate InSlice(s: Slice, n: nat, k: int)
  {
    SliceIndex(s.pos, n) <= k < SliceIndex(s.pos + s.num, n)
  }

  /** `img[s.pos:s.pos + s.num] = 1` on a flat image. */
  function Paint1(img: seq<bool>, s: Slice): (img': seq<bool>)
    ensures |img'| == |img|
  {
    seq(|img|, k requires 0 <= k < |img| => img[k] || InSlice(s, |img|, k))
  }

  /** `np.zeros(n)` with every slice of `sl` painted in turn. */
  function Paint(sl: seq<Slice>, n: nat): (img: seq<bool>)
    ensures |img| == n
    decreases |sl|
  {
    if |sl| == 0 then seq(n, k => false) else Paint1(Paint(sl[..|sl| - 1], n), sl[|sl| - 1])
  }

  /** `list(zip(x[::2], x[1::2]))`: consecutive tokens taken two at a time. */
  function Pairs(ts: seq<string>): (ps: seq<(string, string)>)
    ensures |ps| == |ts| / 2
    ensures forall i :: 0 <= i < |ps| ==> ps[i] == (ts[2 * i], ts[2 * i + 1])
    decreases |ts|
  {
    if |ts| < 2 then [] else [(ts[0], ts[1])] + Pairs(ts[2..])
  }

  /** Both `int(pos)` and `int(num)` succeed on the pair. */
  predicate PairParses(p: (string, string))
  {
    ParseInt(p.0).Some? && ParseInt(p.1).Some?
  }

  predicate AllParse(ps: seq<(string, string)>)
  {
    forall i :: 0 <= i < |ps| ==> PairParses(ps[i])
  }

  /** `pos = int(pos) - 1; num = int(num)` */
  function SliceOf(p: (string, string)): Slice
    requires PairParses(p)
  {
    Slice(ParseInt(p.0).value - 1, ParseInt(p.1).value)
  }

  function SlicesOf(ps: seq<(string, string)>): (sl: seq<Slice>)
    requires AllParse(ps)
    ensures |sl| == |ps|
  {
    seq(|ps|, i requires 0 <= i < |ps| => SliceOf(ps[i]))
  }

  lemma RowBound(w: nat, h: nat, r: nat)
    requires r < h
    ensures r * w + w <= w * h
  {
    assert w * h == (r + 1) * w + (h - r - 1) * w;
  }

  /** Row r of `flat.reshape((h, w))`. */
  function Row(flat: seq<bool>, w: nat, h: nat, r: nat): (row: seq<bool>)
    requires |flat| == w * h && r < h
    ensures |row| == w
  {
    RowBound(w, h, r);
    flat[r * w..r * w + w]
  }

  /** `flat.reshape((h, w))`: h rows of w pixels. */
  function Reshape(flat: seq<bool>, w: nat, h: nat): (rows: seq<seq<bool>>)
    requires |flat| == w * h
    ensures |rows| == h
  {
    seq(h, r requires 0 <= r < h => Row(flat, w, h, r))
  }

  /** What `rle_decode(x, shape=(w, h))` returns on the tokens of `x.split()`. */
  function DecodeTokens(ts: seq<string>, w: nat, h: nat): Result<seq<seq<bool>>, PyError>
  {
    var ps := Pairs(ts);
    if AllParse(ps) then Ok(Reshape(Paint(SlicesOf(ps), w * h), w, h)) else Err(ValueError)
  }

  /** What `rle_decode(s, shape=(w, h))` returns. */
  function Decoding(s: string, w: nat, h: nat): Result<seq<seq<bool>>, PyError>
  {
    DecodeTokens(SplitWs(s), w, h)
  }

  /** `img[pos:(pos + num)] = 1` in place. */
  method PaintSlice(img: array<bool>, sl: Slice)
    modifies img
    ensures img[..] == Paint1(old(img[..]), sl)
  {
    var lo, hi := SliceIndex(sl.pos, img.Length), SliceIndex(sl.pos + sl.num, img.Length);
    forall k | lo <= k < hi {
      img[k] := true;
    }
  }

  lemma {:induction false} SlicesOfSnoc(ps: seq<(string, string)>, i: nat)
    requires i < |ps| && AllParse(ps[..i]) && PairParses(ps[i])
    ensures AllParse(ps[..i + 1])
    ensures SlicesOf(ps[..i + 1]) == SlicesOf(ps[..i]) + [SliceOf(ps[i])]
  {
    assert ps[..i + 1] == ps[..i] + [ps[i]];
  }

  lemma {:induction false} PaintSnoc(sl: seq<Slice>, s: Slice, n: nat)
    ensures Paint(sl + [s], n) == Paint1(Paint(sl, n), s)
  {
    assert (sl + [s])[..|sl|] == sl;
  }

  /** One more parsed pair paints one more slice. */
  lemma {:induction false} PaintPairsStep(ps: seq<(string, string)>, i: nat, n: nat, before: seq<bool>)
    requires i < |ps| && AllParse(ps[..i]) && PairParses(ps[i])
    requires before == Paint(SlicesOf(ps[..i]), n)
    ensures AllParse(ps[..i + 1])
    ensures Paint1(before, SliceOf(ps[i])) == Paint(SlicesOf(ps[..i + 1]), n)
  {
    SlicesOfSnoc(ps, i);
    PaintSnoc(SlicesOf(ps[..i]), SliceOf(ps[i]), n);
  }

  /**
   * The loop of `rle_decode` over the pairs: each pair is parsed and its
   * slice of the zeroed image of n pixels set; a token that is not an
   * integer raises ValueError.
   */
  method PaintPairs(posNums: seq<(string, string)>, n: nat) returns (r: Option<seq<bool>>)
    ensures r.Some? <==> AllParse(posNums)
    ensures r.Some? ==> AllParse(posNums) && r.value == Paint(SlicesOf(posNums), n)
  {
    var img := new bool[n](k => false);
    for i := 0 to |posNums|
      invariant AllParse(posNums[..i])
      invariant img[..] == Paint(SlicesOf(posNums[..i]), n)
    {
      var pn := posNums[i];
      var pos := ParseInt(pn.0);
      if pos.None? {
        assert !PairParses(posNums[i]);
        return None;
      }
      var num := ParseInt(pn.1);
      if num.None? {
        assert !PairParses(posNums[i]);
        return None;
      }
      var sl := Slice(pos.value - 1, num.value);
      assert PairParses(posNums[i]) && sl == SliceOf(posNums[i]);
      PaintPairsStep(posNums, i, n, img[..]);
      PaintSlice(img, sl);
    }
    assert posNums[..|posNums|] == posNums;
    assert AllParse(posNums);
    var painted := img[..];
    assert painted == Paint(SlicesOf(posNums), n);
    return Some(painted);
  }

  /** `rle_decode(s, shape=(width, height))`. */
  method RleDecode(s: string, width: nat, height: nat) returns (r: Result<seq<seq<bool>>, PyError>)
    ensures r == Decoding(s, width, height)
  {
    var n := width * height;
    var x := SplitWs(s);
    var posNums := Pairs(x);
    var painted := PaintPairs(posNums, n);
    if painted.None? {
      return Err(ValueError);
    }
    r := Ok(Reshape(painted.value, width, height));
  }

  // ---------------------------------------------------------------------------
  // Properties
  // ---------------------------------------------------------------------------

  /** Pixel (r, c) of the reshaped image is pixel r * w + c of the flat one. */
  lemma {:induction false} ReshapeAt(flat: seq<bool>, w: nat, h: nat, r: nat, c: nat)
    requires |flat| == w * h && r < h && c < w
    ensures 0 <= r * w + c < |flat|
    ensures |Reshape(flat, w, h)[r]| == w
    ensures Reshape(flat, w, h)[r][c] == flat[r * w + c]
  {
    RowBound(w, h, r);
  }

  /** Reshaping loses nothing: two flat images with the same reshape are equal. */
  lemma {:induction false} ReshapeInjective(a: seq<bool>, b: seq<bool>, w: nat, h: nat)
    requires |a| == w * h && |b| == w * h
    requires Reshape(a, w, h) == Reshape(b, w, h)
    ensures a == b
  {
    forall k | 0 <= k < |a| ensures a[k] == b[k] {
      var r, c := RowColumn(k, w, h);
      ReshapeAt(a, w, h, r, c);
      ReshapeAt(b, w, h, r, c);
    }
  }

  /** Every flat index of an h x w image is r * w + c for some row r and column c. */
  lemma {:induction false} RowColumn(k: nat, w: nat, h: nat) returns (r: nat, c: nat)
    requires k < w * h
    ensures r < h && c < w && k == r * w + c
  {
    assert w != 0;
    r, c := k / w, k % w;
    assert r * w <= k < h * w;
  }

  /** A pixel is set after painting iff some slice covers it. */
  lemma {:induction false} PaintAt(sl: seq<Slice>, n: nat, k: int)
    requires 0 <= k < n
    ensures Paint(sl, n)[k] <==> exists j :: 0 <= j < |sl| && InSlice(sl[j], n, k)
    decreases |sl|
  {
    if |sl| > 0 {
      var init := sl[..|sl| - 1];
      PaintAt(init, n, k);
      if Paint(sl, n)[k] && !InSlice(sl[|sl| - 1], n, k) {
        var j :| 0 <= j < |init| && InSlice(init[j], n, k);
        assert sl[j] == init[j];
      }
      if exists j :: 0 <= j < |sl| && InSlice(sl[j], n, k) {
        var j :| 0 <= j < |sl| && InSlice(sl[j], n, k);
        if j < |sl| - 1 {
          assert init[j] == sl[j];
        }
      }
    }
  }

  /**
   * The pairs may come in any order and may repeat: two pair lists holding
   * the same slices paint the same image.
   */
  lemma {:induction false} PaintOrderFree(a: seq<Slice>, b: seq<Slice>, n: nat)
    requires forall s :: s in a <==> s in b
    ensures Paint(a, n) == Paint(b, n)
  {
    forall k | 0 <= k < n ensures Paint(a, n)[k] == Paint(b, n)[k] {
      PaintAt(a, n, k);
      PaintAt(b, n, k);
      if exists j :: 0 <= j < |a| && InSlice(a[j], n, k) {
        var j :| 0 <= j < |a| && InSlice(a[j], n, k);
        assert a[j] in b;
      }
      if exists j :: 0 <= j < |b| && InSlice(b[j], n, k) {
        var j :| 0 <= j < |b| && InSlice(b[j], n, k);
        assert b[j] in a;
      }
    }
  }

  /** A slice with a non-negative start and length covers exactly its pixels inside the image. */
  lemma {:induction false} InSliceClipped(s: Slice, n: nat, k: int)
    requires 0 <= s.pos && 0 <= s.num && 0 <= k < n
    ensures InSlice(s, n, k) <==> s.pos <= k < s.pos + s.num
  {
  }

  /** An unpaired last token is dropped by `zip`. */
  lemma {:induction false} PairsDropLast(ts: seq<string>)
    requires |ts| % 2 == 1
    ensures Pairs(ts) == Pairs(ts[..|ts| - 1])
  {
    var u := ts[..|ts| - 1];
    assert |Pairs(ts)| == |Pairs(u)|;
    forall i | 0 <= i < |Pairs(ts)| ensures Pairs(ts)[i] == Pairs(u)[i] {
      assert u[2 * i] == ts[2 * i] && u[2 * i + 1] == ts[2 * i + 1];
    }
  }

  lemma {:induction false} DecodeDropsLastToken(ts: seq<string>, w: nat, h: nat)
    requires |ts| % 2 == 1
    ensures DecodeTokens(ts, w, h) == DecodeTokens(ts[..|ts| - 1], w, h)
  {
    PairsDropLast(ts);
  }

  /**
   * On success, pixel (r, c) of the decoded mask is flat pixel r * w + c of
   * the painted image, which is set iff some decoded slice covers it
   * (PaintAt).
   */
  lemma {:induction false} DecodePixel(ts: seq<string>, w: nat, h: nat, r: nat, c: nat)
    requires DecodeTokens(ts, w, h).Ok? && r < h && c < w
    ensures AllParse(Pairs(ts)) && 0 <= r * w + c < w * h
    ensures DecodeTokens(ts, w, h).value[r][c] == Paint(SlicesOf(Pairs(ts)), w * h)[r * w + c]
  {
    var flat := Paint(SlicesOf(Pairs(ts)), w * h);
    assert DecodeTokens(ts, w, h) == Ok(Reshape(flat, w, h));
    ReshapeAt(flat, w, h, r, c);
  }

  /** The slices the decoder reads from the pair list of `rs`. */
  function RunSlices(rs: seq<Run>): (sl: seq<Slice>)
    ensures |sl| == |rs|
  {
    seq(|rs|, j requires 0 <= j < |rs| => Slice(rs[j].start - 1, rs[j].length))
  }

  /** The tokens of a pair list of runs parse back into the runs' slices. */
  lemma {:induction false} ParseRunTokens(rs: seq<Run>)
    ensures var ps := Pairs(Strs(Flat(rs)));
      AllParse(ps) && SlicesOf(ps) == RunSlices(rs)
  {
    var ts := Strs(Flat(rs));
    var ps := Pairs(ts);
    assert |ps| == |rs|;
    forall j | 0 <= j < |rs| ensures PairParses(ps[j]) && SliceOf(ps[j]) == RunSlices(rs)[j] {
      FlatAt(rs, j);
      assert ps[j] == (NatToString(rs[j].start), NatToString(rs[j].length));
      ParseNatToString(rs[j].start);
      ParseNatToString(rs[j].length);
    }
  }

  /** Painting the slices of runs inside the image sets exactly the covered pixels. */
  lemma {:induction false} PaintRuns(rs: seq<Run>, n: nat)
    requires RunsInside(n, rs)
    ensures forall k :: 0 <= k < n ==> (Paint(RunSlices(rs), n)[k] <==> Covered(rs, k))
  {
    var sl := RunSlices(rs);
    forall k | 0 <= k < n ensures Paint(sl, n)[k] <==> Covered(rs, k) {
      PaintAt(sl, n, k);
      forall j | 0 <= j < |rs| ensures InSlice(sl[j], n, k) <==> Covers(rs[j], k) {
        InSliceClipped(sl[j], n, k);
      }
    }
  }

  /**
   * `rle_decode(rle_encode(x, 'fast'), (w, h))` is `x` reshaped to h rows
   * of w pixels.
   */
  lemma {:induction false} DecodeFastEncoding(x: seq<bool>, w: nat, h: nat)
    requires |x| == w * h
    ensures Decoding(FastEncoding(x), w, h) == Ok(Reshape(x, w, h))
  {
    var rs := Runs(x);
    var ts := Strs(Flat(rs));
    StrsAreWords(Flat(rs));
    SplitJoin(ts);
    assert SplitWs(FastEncoding(x)) == ts;
    ParseRunTokens(rs);
    PaintRunsOfMask(x);
    assert DecodeTokens(ts, w, h) == Ok(Reshape(Paint(RunSlices(rs), w * h), w, h));
  }

  /** Painting the slices of the runs of a mask gives back the mask. */
  lemma {:induction false} PaintRunsOfMask(x: seq<bool>)
    ensures Paint(RunSlices(Runs(x)), |x|) == x
  {
    var rs := Runs(x);
    RunsIsRle(x);
    PaintRuns(rs, |x|);
    var img := Paint(RunSlices(rs), |x|);
    forall k | 0 <= k < |x| ensures img[k] == x[k] {
      assert img[k] <==> Covered(rs, k);
    }
  }

  /** A negative length wraps the slice end around, as Python slicing does: "1 -1" sets all but the last pixel. */
  lemma {:induction false} NegativeLengthWraps()
    ensures DecodeTokens(["1", "-1"], 3, 1) == Ok([[true, true, false]])
  {
    assert ParseInt("1") == Some(1);
    assert ParseInt("-1") == Some(-1);
    var sl := [Slice(0, -1)];
    assert Pairs(["1", "-1"]) == [("1", "-1")];
    assert SlicesOf(Pairs(["1", "-1"])) == sl;
    var flat := Paint(sl, 3);
    assert flat == [true, true, false];
    assert Row(flat, 3, 1, 0) == flat[0..3] == flat;
    assert Reshape(flat, 3, 1) == [flat];
  }

  /**
   * Start "0" makes the slice begin at the last pixel: on two pixels "0 2"
   * is `img[-1:1]`, which is empty, so nothing is set. A longer length can
   * still reach past the wrapped start and set the last pixel.
   */
  lemma {:induction false} ZeroStartPaintsNothing()
    ensures DecodeTokens(["0", "2"], 2, 1) == Ok([[false, false]])
  {
    assert ParseInt("0") == Some(0);
    assert ParseInt("2") == Some(2);
    var sl := [Slice(-1, 2)];
    assert Pairs(["0", "2"]) == [("0", "2")];
    assert SlicesOf(Pairs(["0", "2"])) == sl;
    var flat := Paint(sl, 2);
    assert flat == [false, false];
    assert Row(flat, 2, 1, 0) == flat[0..2] == flat;
    assert Reshape(flat, 2, 1) == [flat];
  }
}

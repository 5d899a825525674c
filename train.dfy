// The pure pieces of train.py: the channel appended to the target size, the
// experiment directory name, the file dictionary, the train/validation split,
// the steps per epoch, and how the training generator is built.

module Train {
  import opened Wrappers
  import opened Strings
  import opened Batches
  import opened ModelName

  // ---------------------------------------------------------------------------
  // target_size and the experiment directory
  // ---------------------------------------------------------------------------

  /** `target_size + (1,)` when grayscale, `target_size + (3,)` otherwise. */
  function WithChannel(size: (int, int), grayscale: bool): (t: (int, int, int))
    ensures t.0 == size.0 && t.1 == size.1
    ensures grayscale <==> t.2 == 1
    ensures !grayscale <==> t.2 == 3
  {
    (size.0, size.1, if grayscale then 1 else 3)
  }

  /** The fields of `'experiment/model-{}-{}-{}-{}-{}-{}-{}'`, each rendered by `str()`. */
  function NameFields(month: nat, day: nat, hour: nat, minute: nat, t: (nat, nat, nat)): seq<string>
  {
    ["experiment/model", NatToString(month), NatToString(day), NatToString(hour), NatToString(minute),
     NatToString(t.0), NatToString(t.1), NatToString(t.2)]
  }

  /** The experiment's name: the format string of `filepath_dir` without its trailing '/'. */
  function ExperimentName(month: nat, day: nat, hour: nat, minute: nat, t: (nat, nat, nat)): string
  {
    JoinWith(NameFields(month, day, hour, minute, t), '-')
  }

  /** `filepath_dir`. */
  function ExperimentDir(month: nat, day: nat, hour: nat, minute: nat, t: (nat, nat, nat)): string
  {
    ExperimentName(month, day, hour, minute, t) + "/"
  }

  lemma {:induction false} DigitsHaveNoDash(s: string)
    requires AllDigits(s)
    ensures '-' !in s
  {
  }

  /**
   * `parse_model_name` inverts the experiment name: it recovers the target
   * size, and `grayscale` from the appended channel.
   */
  lemma {:induction false} ParseExperimentName(month: nat, day: nat, hour: nat, minute: nat,
                                               size: (nat, nat), grayscale: bool)
    ensures var t := WithChannel(size, grayscale);
      ParseModelName(ExperimentName(month, day, hour, minute, (t.0, t.1, t.2))) == Ok(((size.0, size.1), grayscale))
  {
    var t := WithChannel(size, grayscale);
    var fs := NameFields(month, day, hour, minute, (t.0, t.1, t.2));
    forall i | 0 <= i < |fs| ensures '-' !in fs[i] {
      if i > 0 {
        DigitsHaveNoDash(fs[i]);
      } else {
        assert fs[0] == "experiment/model";
      }
    }
    SplitOnJoin(fs, '-');
    ParseNatToString(t.0);
    ParseNatToString(t.1);
    ParseNatToString(t.2);
  }

  // ---------------------------------------------------------------------------
  // fn_dict and the stem list
  // ---------------------------------------------------------------------------

  /** `os.path.join(a, b)` for two components. */
  function PathJoin(a: string, b: string): string
  {
    if |b| > 0 && b[0] == '/' then b
    else if |a| == 0 || a[|a| - 1] == '/' then a + b
    else a + "/" + b
  }

  /** `os.path.basename(p)`: what follows the last '/'. */
  function Basename(p: string): (b: string)
    ensures '/' !in b
    decreases |p|
  {
    if |p| == 0 || p[|p| - 1] == '/' then ""
    else Basename(p[..|p| - 1]) + [p[|p| - 1]]
  }

  /** The index of the last '.' in `s`. */
  function LastDot(s: string): (i: Option<nat>)
    ensures i.Some? ==> i.value < |s| && s[i.value] == '.'
    ensures i.Some? ==> forall k :: i.value < k < |s| ==> s[k] != '.'
    ensures i.None? ==> '.' !in s
    decreases |s|
  {
    if |s| == 0 then None
    else if s[|s| - 1] == '.' then Some(|s| - 1)
    else LastDot(s[..|s| - 1])
  }

  /** `os.path.splitext(b)[0]` for a base name: the extension starts at the last dot, unless only dots precede it. */
  function DropExt(b: string): string
  {
    match LastDot(b)
    case None => b
    case Some(i) => if forall k :: 0 <= k < i ==> b[k] == '.' then b else b[..i]
  }

  /** `os.path.splitext(os.path.basename(x))[0]`. */
  function Stem(x: string): string
  {
    DropExt(Basename(x))
  }

  lemma {:induction false} BasenameAfterSlash(p: string, b: string)
    requires '/' !in b && (|p| == 0 || p[|p| - 1] == '/')
    ensures Basename(p + b) == b
    decreases |b|
  {
    if |b| > 0 {
      var s := p + b;
      assert s[..|s| - 1] == p + b[..|b| - 1];
      BasenameAfterSlash(p, b[..|b| - 1]);
      assert b[..|b| - 1] + [b[|b| - 1]] == b;
    } else {
      assert p + b == p;
    }
  }

  /** The extension of `fn + '.jpg'` starts at the dot added after `fn`. */
  lemma {:induction false} LastDotOfJpg(fn: string)
    ensures LastDot(fn + ".jpg") == Some(|fn|)
  {
    var b := fn + ".jpg";
    assert b[|b| - 1] == 'g' && b[..|b| - 1] == fn + ".jp";
    var c := fn + ".jp";
    assert c[|c| - 1] == 'p' && c[..|c| - 1] == fn + ".j";
    var e := fn + ".j";
    assert e[|e| - 1] == 'j' && e[..|e| - 1] == fn + ".";
    assert (fn + ".")[|fn|] == '.';
  }

  /** The stem of an image file path is the key it was named after. */
  lemma {:induction false} StemOfImagePath(dir: string, fn: string)
    requires |fn| > 0 && fn[0] != '.' && fn[0] != '/' && '/' !in fn
    ensures Stem(PathJoin(dir, fn + ".jpg")) == fn
  {
    var b := fn + ".jpg";
    assert b[0] == fn[0];
    assert '/' !in b by {
      forall k | 0 <= k < |b| ensures b[k] != '/' {
        if k < |fn| { assert b[k] == fn[k]; }
      }
    }
    if |dir| == 0 || dir[|dir| - 1] == '/' {
      BasenameAfterSlash(dir, b);
    } else {
      assert PathJoin(dir, b) == (dir + "/") + b;
      BasenameAfterSlash(dir + "/", b);
    }
    LastDotOfJpg(fn);
    assert b[0] != '.';
    assert b[..|fn|] == fn;
  }

  /** `fn_dict = {fn: [join(img_dir, fn + '.jpg'), join(mask_dir, fn + '_mask.gif')] for fn in total_fns}` */
  function MakeFnDict(total: seq<string>, imgDir: string, maskDir: string): (d: FnDict)
    ensures d.Keys == set fn | fn in total
    ensures forall fn :: fn in d ==> d[fn] == [PathJoin(imgDir, fn + ".jpg"), PathJoin(maskDir, fn + "_mask.gif")]
  {
    map fn | fn in total :: [PathJoin(imgDir, fn + ".jpg"), PathJoin(maskDir, fn + "_mask.gif")]
  }

  /** `[os.path.splitext(os.path.basename(x))[0] for x in globbed]`: the globbed paths' stems, in order. */
  function TotalFns(globbed: seq<string>): seq<string>
  {
    seq(|globbed|, i requires 0 <= i < |globbed| => Stem(globbed[i]))
  }

  /**
   * A file name `glob(join(img_dir, '*.jpg'))` can return: it ends in
   * `.jpg`, has no '/', and does not start with '.' (the `*` wildcard skips
   * hidden files).
   */
  predicate GlobbedJpgName(name: string)
  {
    |name| >= 4 && name[|name| - 4..] == ".jpg" && '/' !in name && name[0] != '.'
  }

  /**
   * The stem of every globbed image path is a key of `fn_dict`, and looking
   * it up gives back that path and the matching mask path.
   */
  lemma {:induction false} FnDictOfGlobbedPath(globbed: seq<string>, imgDir: string, maskDir: string,
                                               x: string, name: string)
    requires x in globbed && x == PathJoin(imgDir, name) && GlobbedJpgName(name)
    ensures var d := MakeFnDict(TotalFns(globbed), imgDir, maskDir);
      && Stem(x) in d
      && d[Stem(x)] == [x, PathJoin(maskDir, name[..|name| - 4] + "_mask.gif")]
  {
    var fn := name[..|name| - 4];
    assert fn + ".jpg" == name;
    assert |fn| > 0 by {
      assert name[0] != ".jpg"[0];
    }
    assert fn[0] == name[0];
    assert '/' !in fn by {
      forall k | 0 <= k < |fn| ensures fn[k] != '/' { assert fn[k] == name[k]; }
    }
    StemOfImagePath(imgDir, fn);
    var total := TotalFns(globbed);
    var i :| 0 <= i < |globbed| && globbed[i] == x;
    assert total[i] == Stem(x);
  }

  // ---------------------------------------------------------------------------
  // The train/validation split
  // ---------------------------------------------------------------------------

  /** `[x for x in total_fns if x not in valid_fns]` */
  function TrainSplit(total: seq<string>, valid: seq<string>): (t: seq<string>)
    ensures forall i :: 0 <= i < |t| ==> t[i] !in valid
    decreases |total|
  {
    if |total| == 0 then []
    else
      var rest := TrainSplit(total[..|total| - 1], valid);
      if total[|total| - 1] in valid then rest else rest + [total[|total| - 1]]
  }

  /** A key is a training key iff it is in `total` and not in `valid`. */
  lemma {:induction false} TrainSplitMembers(total: seq<string>, valid: seq<string>, x: string)
    ensures x in TrainSplit(total, valid) <==> x in total && x !in valid
    decreases |total|
  {
    if |total| > 0 {
      var init := total[..|total| - 1];
      TrainSplitMembers(init, valid, x);
      assert total == init + [total[|total| - 1]];
    }
  }

  /** `a` is `b` with some elements removed, order kept. */
  predicate IsSubsequence(a: seq<string>, b: seq<string>)
    decreases |b|
  {
    if |a| == 0 then true
    else if |b| == 0 then false
    else if a[|a| - 1] == b[|b| - 1] then IsSubsequence(a[..|a| - 1], b[..|b| - 1])
    else IsSubsequence(a, b[..|b| - 1])
  }

  lemma {:induction false} TrainSplitIsSubsequence(total: seq<string>, valid: seq<string>)
    ensures IsSubsequence(TrainSplit(total, valid), total)
    decreases |total|
  {
    if |total| > 0 {
      var init := total[..|total| - 1];
      var rest := TrainSplit(init, valid);
      TrainSplitIsSubsequence(init, valid);
      if total[|total| - 1] !in valid {
        assert (rest + [total[|total| - 1]])[..|rest|] == rest;
      } else if |rest| > 0 {
        assert rest[|rest| - 1] !in valid;
      }
    }
  }

  /** `valid_fns` may repeat keys and come in any order: only its set of keys matters. */
  lemma {:induction false} TrainSplitSetOnly(total: seq<string>, v1: seq<string>, v2: seq<string>)
    requires forall x :: x in v1 <==> x in v2
    ensures TrainSplit(total, v1) == TrainSplit(total, v2)
    decreases |total|
  {
    if |total| > 0 {
      TrainSplitSetOnly(total[..|total| - 1], v1, v2);
    }
  }

  /** Every training key has both paths in `fn_dict`, so no training window raises. */
  lemma {:induction false} TrainKeysLoad(total: seq<string>, valid: seq<string>, imgDir: string, maskDir: string)
    ensures forall x :: x in TrainSplit(total, valid) ==> RowLoads(MakeFnDict(total, imgDir, maskDir), x, true)
  {
    forall x | x in TrainSplit(total, valid) ensures RowLoads(MakeFnDict(total, imgDir, maskDir), x, true) {
      TrainSplitMembers(total, valid, x);
    }
  }

  // ---------------------------------------------------------------------------
  // Steps per epoch and the generators
  // ---------------------------------------------------------------------------

  /** `ceil(n / batch_size)`, with Python's true division: zero raises, a negative size rounds toward +inf. */
  function StepsPerEpoch(n: nat, batchSize: int): (r: Result<int, PyError>)
    ensures batchSize == 0 <==> r == Err(ZeroDivisionError)
    ensures batchSize < 0 ==> r.Ok? && r.value <= 0
  {
    if batchSize == 0 then Err(ZeroDivisionError)
    else if batchSize > 0 then Ok((n + batchSize - 1) / batchSize)
    else Ok(-(n / -batchSize))
  }

  /** For a positive batch size the steps are the least k with k * batch_size >= n. */
  lemma {:induction false} StepsAreLeast(n: nat, batchSize: int)
    requires batchSize > 0
    ensures StepsPerEpoch(n, batchSize) == Ok(Windows(n, batchSize))
    ensures var k := Windows(n, batchSize); k * batchSize >= n && (k == 0 || (k - 1) * batchSize < n)
  {
  }

  /** `train_gen = data_gen(train_fns, fn_dict, shuffle=True)`: every other argument takes data_gen's default. */
  method MakeTrainGen(trainFns: seq<string>, fnDict: FnDict, order: seq<string>) returns (g: DataGen)
    requires multiset(order) == multiset(trainFns)
    ensures fresh(g) && g.Valid() && g.idx == 0 && !g.finished
    ensures g.fns == order && g.fnDict == fnDict
    ensures g.batchSize == 2 && g.targetSize == (256, 256) && g.grayscale && !g.test
  {
    g := new DataGen(trainFns, fnDict, order, (256, 256), true, 2, false, true, false);
  }

  /** `valid_gen = data_gen(valid_fns, fn_dict)`: unshuffled, with the same defaults. */
  method MakeValidGen(validFns: seq<string>, fnDict: FnDict) returns (g: DataGen)
    ensures fresh(g) && g.Valid() && g.idx == 0 && !g.finished
    ensures g.fns == validFns && g.fnDict == fnDict
    ensures g.batchSize == 2 && g.targetSize == (256, 256) && g.grayscale && !g.test
  {
    g := new DataGen(validFns, fnDict, validFns, (256, 256), true, 2, false, false, false);
  }

  /**
   * The first epoch of `ceil(n / batch_size)` steps draws windows of two keys
   * from the permutation, so it delivers its first min(n, 2 * steps) keys.
   */
  lemma {:induction false} TrainEpochOneKeys(order: seq<string>, batchSize: int)
    requires batchSize > 0
    ensures var steps := Windows(|order|, batchSize);
      Walked(order, 2, steps) == order[..Min(2 * steps, |order|)]
  {
    WalkedPrefix(order, 2, Windows(|order|, batchSize));
  }

  /** With `--batch_size 4` and eight training keys the first epoch sees only four of them. */
  lemma {:induction false} TrainEpochMissesKeys(order: seq<string>)
    requires |order| == 8
    ensures StepsPerEpoch(8, 4) == Ok(2)
    ensures Walked(order, 2, 2) == order[..4] && Walked(order, 2, 2) != order
  {
    WalkedPrefix(order, 2, 2);
  }

  /** Passing `batch_size` through: every first epoch then walks the whole permutation. */
  method MakeTrainGenIntended(trainFns: seq<string>, fnDict: FnDict, order: seq<string>, batchSize: nat)
    returns (g: DataGen)
    requires batchSize > 0 && multiset(order) == multiset(trainFns)
    ensures fresh(g) && g.Valid() && g.idx == 0 && !g.finished
    ensures g.fns == order && g.batchSize == batchSize
    ensures Walked(g.fns, g.batchSize, Windows(|trainFns|, batchSize)) == order
  {
    g := new DataGen(trainFns, fnDict, order, (256, 256), true, batchSize, false, true, false);
    assert |order| == |multiset(order)| == |trainFns|;
    WindowsWalkAll(order, batchSize, 0);
  }

  /**
   * `data_gen` never resets `idx`: once ceil(n / 2) windows have been drawn,
   * every later window is empty, so each later batch is the previous
   * buffers unchanged.
   */
  lemma {:induction false} TrainGenRunsDry(order: seq<string>, j: nat, d: FnDict, b: Buffers)
    requires j >= Windows(|order|, 2) && |b.xs| >= 2 && |b.ys| >= 2
    ensures Window(order, j * 2, 2) == []
    ensures Fill(Window(order, j * 2, 2), d, true, (256, 256), true, b) == Done(b)
  {
    ExhaustedCallKeepsRows(order, 2, j, d, true, (256, 256), true, b);
  }

  /**
   * The cursor before window j of a generator that restarts once its
   * cursor passes the last key, as a training generator evidently should.
   */
  function IntendedCursor(n: nat, bs: nat, j: nat): nat
    decreases j
  {
    if j == 0 then 0
    else
      var c := IntendedCursor(n, bs, j - 1);
      if c + bs >= n then 0 else c + bs
  }

  lemma {:induction false} IntendedCursorFirstEpoch(n: nat, bs: nat, j: nat)
    requires bs > 0 && j < Windows(n, bs)
    ensures IntendedCursor(n, bs, j) == j * bs
    decreases j
  {
    if j > 0 {
      IntendedCursorFirstEpoch(n, bs, j - 1);
      var k := Windows(n, bs);
      MulStep(j - 1, bs);
      MulMonotone(j, k - 1, bs);
    }
  }

  lemma {:induction false} IntendedCursorPeriodic(n: nat, bs: nat, j: nat)
    requires bs > 0
    ensures IntendedCursor(n, bs, j + Windows(n, bs)) == IntendedCursor(n, bs, j)
    decreases j
  {
    var k := Windows(n, bs);
    if j > 0 {
      IntendedCursorPeriodic(n, bs, j - 1);
      assert j + k - 1 == (j - 1) + k;
    } else if k > 0 {
      IntendedCursorFirstEpoch(n, bs, k - 1);
      assert (k - 1) * bs + bs == k * bs;
    }
  }

  /**
   * With the restarting cursor, window j of every epoch e is window j of
   * the first: each epoch walks all keys, in the same order.
   */
  lemma {:induction false} IntendedEpochsRepeat(n: nat, bs: nat, e: nat, j: nat)
    requires bs > 0 && j < Windows(n, bs)
    ensures IntendedCursor(n, bs, e * Windows(n, bs) + j) == j * bs
    decreases e
  {
    var k := Windows(n, bs);
    if e > 0 {
      IntendedEpochsRepeat(n, bs, e - 1, j);
      assert e * k + j == ((e - 1) * k + j) + k;
      IntendedCursorPeriodic(n, bs, (e - 1) * k + j);
    } else {
      IntendedCursorFirstEpoch(n, bs, j);
    }
  }
}

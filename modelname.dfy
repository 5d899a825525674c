// parse_model_name: the target size and colour mode encoded in the name of
// an experiment directory.

module ModelName {
  import opened Wrappers
  import opened Strings

  /**
   * `parse_model_name(x)`: the last three '-'-separated fields are the two
   * target dimensions and the channel count; more than one channel means
   * colour. Fewer than three fields is an IndexError (`xs[-3]`), a field that
   * is not a decimal literal a ValueError.
   */
  function ParseModelName(x: string): (r: Result<((int, int), bool), PyError>)
    ensures r == Err(IndexError) <==> |SplitOn(x, '-')| < 3
    ensures r.Ok? ==>
      var xs := SplitOn(x, '-');
      var n := |xs|;
      && ParseInt(xs[n - 3]) == Some(r.value.0.0)
      && ParseInt(xs[n - 2]) == Some(r.value.0.1)
      && (ParseInt(xs[n - 1]).Some? && (r.value.1 <==> ParseInt(xs[n - 1]).value <= 1))
    ensures r.Ok? <==>
      var xs := SplitOn(x, '-');
      var n := |xs|;
      && n >= 3
      && ParseInt(xs[n - 3]).Some?
      && ParseInt(xs[n - 2]).Some?
      && ParseInt(xs[n - 1]).Some?
  {
    var xs := SplitOn(x, '-');
    var n := |xs|;
    if n < 3 then Err(IndexError)
    else
      var t0 := ParseInt(xs[n - 3]);
      var t1 := ParseInt(xs[n - 2]);
      var channel := ParseInt(xs[n - 1]);
      if t0.None? || t1.None? || channel.None? then Err(ValueError)
      else Ok(((t0.value, t1.value), !(channel.value > 1)))
  }

  /** A name with a field that is not an integer is rejected with ValueError. */
  lemma {:induction false} ParseModelNameBadField()
    ensures ParseModelName("model-256-x-1") == Err(ValueError)
  {
    assert "model-256-x-1" == JoinWith(["model", "256", "x", "1"], '-');
    SplitOnJoin(["model", "256", "x", "1"], '-');
    assert Strip("x") == "x";
    assert !IsDigit('x');
  }
}

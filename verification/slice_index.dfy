/** Subscripts of `FmtStr` and how they become a pair of bounds. */
module SliceIndex {
  import opened Wrappers

  /** A subscript: an integer, or a slice object whose start, stop and step may be `None`. */
  datatype Index = At(i: int) | Range(start: Option<int>, stop: Option<int>, step: Option<int>)

  /** An integer subscript `i` becomes the slice `i:i+1` without a step; a slice is kept. */
  function AsRange(index: Index): (r: Index)
    ensures r.Range?
    ensures index.At? ==> r == Range(Some(index.i), Some(index.i + 1), None)
  {
    match index
    case At(i) => Range(Some(i), Some(i + 1), None)
    case Range(_, _, _) => index
  }

  /** `normalize_slice` as written, for a string of length `n`. A missing bound is `None`,
      which in Python 2 compares below every number, so `len(self) - None` raises; a bound
      below -1 becomes `n - bound`; a step is refused after the bounds. */
  function NormalizeSliceAsWritten(n: nat, index: Index): (r: Result<(int, int)>)
    ensures AsRange(index).start.None? || AsRange(index).stop.None? ==> r == Err(TypeError)
    ensures AsRange(index).start.Some? && AsRange(index).stop.Some? ==>
      (r.Err? <==> AsRange(index).step.Some?) && (r.Err? ==> r.error == NotImplementedError)
    ensures r.Ok? && AsRange(index).start.value >= -1 ==> r.value.0 == AsRange(index).start.value
    ensures r.Ok? && AsRange(index).start.value < -1 ==> r.value.0 == n - AsRange(index).start.value > n
    ensures r.Ok? && AsRange(index).stop.value >= -1 ==> r.value.1 == AsRange(index).stop.value
    ensures r.Ok? && AsRange(index).stop.value < -1 ==> r.value.1 == n - AsRange(index).stop.value > n
  {
    var r := AsRange(index);
    if r.start.None? then Err(TypeError)
    else
      var a := if r.start.value < -1 then n - r.start.value else r.start.value;
      if r.stop.None? then Err(TypeError)
      else
        var b := if r.stop.value < -1 then n - r.stop.value else r.stop.value;
        if r.step.Some? then Err(NotImplementedError) else Ok((a, b))
  }

  /** As written, a bound counted from the end lands past the end of the string: on a
      string of length 10, `-2` becomes 12 where 8 is meant. */
  lemma AsWrittenFromEndOvershoots(n: nat, b: int)
    requires b < -1
    ensures NormalizeSliceAsWritten(n, Range(Some(b), Some(n), None)) == Ok((n - b, n))
    ensures n - b > n
    ensures NormalizeSliceAsWritten(10, Range(Some(-2), Some(10), None)) == Ok((12, 10))
  {
  }

  /** As written, a slice with an open end raises: `f[:3]` and `f[3:]` both fail. */
  lemma AsWrittenOpenBoundFails(n: nat, b: int)
    ensures NormalizeSliceAsWritten(n, Range(None, Some(b), None)) == Err(TypeError)
    ensures NormalizeSliceAsWritten(n, Range(Some(b), None, None)) == Err(TypeError)
  {
  }

  /** As written, a stop counted from the end lands past the end as well: on a string of
      length 10, `f[0:-3]` becomes `0:13`. */
  lemma AsWrittenStopOvershoots(n: nat, b: int)
    requires b < -1
    ensures NormalizeSliceAsWritten(n, Range(Some(0), Some(b), None)) == Ok((0, n - b))
    ensures NormalizeSliceAsWritten(10, Range(Some(0), Some(-3), None)) == Ok((0, 13))
  {
  }

  /** As written, -1 is not counted from the end: `f[-1]` becomes `-1:0`, and `f[-1:]` is
      refused with the other open bounds. */
  lemma AsWrittenMinusOneKept(n: nat)
    ensures NormalizeSliceAsWritten(n, At(-1)) == Ok((-1, 0))
    ensures NormalizeSliceAsWritten(n, Range(Some(-1), Some(n), None)) == Ok((-1, n))
  {
  }

  /** A bound below -1 counted from the end of a string of length `n`; -1 is kept. */
  function FromEnd(n: nat, b: int): int
  {
    if b < -1 then n + b else b
  }

  /** `normalize_slice` with the bound arithmetic corrected: a bound below -1 becomes
      `n + bound`, a missing start is 0 and a missing stop is `n`. The -1 boundary and the
      refusal of steps are kept. */
  function NormalizeSlice(n: nat, index: Index): (r: Result<(int, int)>)
    ensures r.Err? <==> AsRange(index).step.Some?
    ensures r.Err? ==> r.error == NotImplementedError
    ensures r.Ok? && AsRange(index).start.Some? && AsRange(index).start.value >= -1 ==>
      r.value.0 == AsRange(index).start.value
    ensures r.Ok? && AsRange(index).start.Some? && AsRange(index).start.value < -1 ==>
      r.value.0 == n + AsRange(index).start.value
    ensures r.Ok? && AsRange(index).stop.Some? && AsRange(index).stop.value >= -1 ==>
      r.value.1 == AsRange(index).stop.value
    ensures r.Ok? && AsRange(index).stop.Some? && AsRange(index).stop.value < -1 ==>
      r.value.1 == n + AsRange(index).stop.value
    ensures index == At(-1) ==> r == Ok((-1, 0))
    ensures forall b :: 0 <= n + b && b < -1 && index == Range(Some(b), Some(n), None) ==> r == Ok((n + b, n))
    ensures forall b :: 0 <= n + b && b < -1 && index == Range(Some(0), Some(b), None) ==> r == Ok((0, n + b))
    ensures index.Range? && index.start.None? && index.step.None? ==> r.Ok? && r.value.0 == 0
    ensures index.Range? && index.stop.None? && index.step.None? ==> r.Ok? && r.value.1 == n
    ensures index.At? && (0 <= index.i < n || (0 <= n + index.i && index.i < -2)) ==>
      r.Ok? && 0 <= r.value.0 < n && r.value.1 == r.value.0 + 1 &&
      r.value.0 == if index.i >= 0 then index.i else n + index.i
  {
    var r := AsRange(index);
    var a := if r.start.None? then 0 else FromEnd(n, r.start.value);
    var b := if r.stop.None? then n else FromEnd(n, r.stop.value);
    if r.step.Some? then Err(NotImplementedError) else Ok((a, b))
  }
}

/** `FmtStr`: a formatted string held as a list of runs, changed in place by splice
    assignment and by attribute updates. */
module Fmt {
  import opened Wrappers
  import opened PyText
  import opened Attributes
  import opened Base
  import opened Runs
  import opened Slicing
  import opened SliceIndex

  class FmtStr {
    /** `fmtstrs`: the runs, in order. */
    var runs: seq<BaseFmtStr>

    /** No run is empty. */
    ghost predicate Valid()
      reads this
    {
      NoEmpty(runs)
    }

    /** `FmtStr(*components)`: keeps the non-empty components, in order. */
    constructor (components: seq<BaseFmtStr>)
      ensures runs == Filter(components)
      ensures Valid()
    {
      FilterSound(components);
      runs := Filter(components);
    }

    /** `len(f)`: the sum of the run lengths, which is the length of `f.s`. */
    function Length(): (n: nat)
      reads this
      ensures n == |S()|
    {
      TotalLength(runs)
    }

    /** `f.s`: the plain text, which holds each run's text at the run's offset and nothing
        else. */
    function S(): (s: string)
      reads this
      ensures |s| == TotalLength(runs)
      ensures forall i :: 0 <= i < |runs| ==> Spells(s, runs, i)
    {
      PlainSegments(runs);
      Plain(runs)
    }

    /** `str(f)`: each run rendered, in order. It fails exactly when some run fails, with the
        error of the first such run; a string without formatting renders as its text. */
    function ToStr(table: Table): (r: Result<string>)
      reads this
      ensures r.Ok? <==> forall i :: 0 <= i < |runs| ==> Render(table, runs[i]).Ok?
      ensures r.Err? ==>
        exists i :: 0 <= i < |runs| && Render(table, runs[i]) == Err(r.error)
          && forall j :: 0 <= j < i ==> Render(table, runs[j]).Ok?
      ensures Unformatted(runs) ==> r == Ok(S())
    {
      RenderAllFirstError(table, runs);
      if Unformatted(runs) then RenderAllWithoutKinds(table, runs); RenderAll(table, runs)
      else RenderAll(table, runs)
    }

    /** `f + other`: a new `FmtStr` holding copies of this string's runs followed by the
        other operand's; any operand but a string or a `FmtStr` raises `TypeError`. */
    method Add(other: Operand) returns (r: Result<FmtStr>)
      requires Valid()
      ensures r.Err? <==> other.Other?
      ensures r.Err? ==> r.error == TypeError
      ensures r.Ok? ==> fresh(r.value) && r.value.Valid() && r.value.runs == Concat(runs, other).value
      ensures other.Formatted? && NoEmpty(other.runs) ==>
        r.Ok? && r.value.runs == runs + other.runs && r.value.S() == S() + Plain(other.runs)
      ensures other.Text? ==> r.Ok? && r.value.S() == S() + other.t
    {
      match other {
        case Formatted(b) => if NoEmpty(b) { ConcatFormatted(runs, b); }
        case Text(t) => ConcatText(runs, t);
        case Other =>
      }
      match other
      case Formatted(b) =>
        var f := new FmtStr(runs + b);
        r := Ok(f);
      case Text(t) =>
        var f := new FmtStr(runs + [BaseFmtStr(t, map[])]);
        r := Ok(f);
      case Other =>
        r := Err(TypeError);
    }

    /** `set_attributes(**attributes)`: for each pair, every run gets `atts[k] = v`. */
    method SetAttributes(attributes: Atts)
      modifies this
      requires Valid()
      ensures runs == SetAll(old(runs), attributes)
      ensures Valid() && S() == old(S())
    {
      ghost var start := runs;
      SetAllNothing(start);
      var remaining := attributes.Keys;
      ghost var done: Atts := map[];
      while remaining != {}
        invariant remaining == attributes.Keys - done.Keys
        invariant forall k :: k in done ==> k in attributes && done[k] == attributes[k]
        invariant runs == SetAll(start, done)
        decreases remaining
      {
        var k :| k in remaining;
        var v := attributes[k];
        SetKey(k, v, start, done);
        done := done[k := v];
        remaining := remaining - {k};
      }
      forall k | k in attributes
        ensures k in done
      {
        assert k !in remaining;
      }
      assert done == attributes;
      SetAllPlain(start, attributes);
    }

    /** One pair of that loop: every run, in turn, gets `atts[k] = v`. */
    method SetKey(k: string, v: Value, ghost start: seq<BaseFmtStr>, ghost done: Atts)
      modifies this
      requires runs == SetAll(start, done)
      ensures runs == SetAll(start, done[k := v])
    {
      var i := 0;
      while i < |runs|
        invariant 0 <= i <= |runs| == |start|
        invariant runs[..i] == SetAll(start, done[k := v])[..i]
        invariant runs[i..] == SetAll(start, done)[i..]
      {
        assert runs[i] == SetAll(start, done)[i];
        assert start[i].atts + done[k := v] == (start[i].atts + done)[k := v];
        runs := runs[i := BaseFmtStr(runs[i].s, runs[i].atts[k := v])];
        i := i + 1;
      }
    }

    /** The loop of `f[start:stop]` over normalised bounds: each run that overlaps the range
        renders the part of its text inside the range with its own attributes. */
    method GetSlice(table: Table, start: int, stop: int) returns (r: Result<string>)
      ensures r == RenderAll(table, Window(runs, start, stop))
    {
      var rs := runs;
      var counter := 0;
      var output := "";
      var i := 0;
      while i < |rs|
        invariant 0 <= i <= |rs|
        invariant counter == TotalLength(rs[..i])
        invariant RenderAll(table, Window(rs[..i], start, stop)) == Ok(output)
      {
        var next := ReadRun(table, rs, i, counter, start, stop, output);
        if next.Err? {
          RenderWindowFailed(table, rs, i + 1, start, stop);
          return next;
        }
        output := next.value;
        counter := counter + |rs[i].s|;
        i := i + 1;
      }
      assert rs[..i] == rs;
      r := Ok(output);
    }

    /** One turn of that loop, for run `i` at offset `counter`: a run that overlaps the range
        appends the rendering of its piece to the output, or fails with it; any other run
        leaves the output as it is. */
    static method ReadRun(table: Table, rs: seq<BaseFmtStr>, i: nat, counter: int, start: int, stop: int,
                          output: string)
      returns (r: Result<string>)
      requires i < |rs| && counter == TotalLength(rs[..i])
      requires RenderAll(table, Window(rs[..i], start, stop)) == Ok(output)
      ensures r == RenderAll(table, Window(rs[..i + 1], start, stop))
      ensures TotalLength(rs[..i + 1]) == counter + |rs[i].s|
    {
      var fs := rs[i];
      PrefixSnoc(rs, i);
      LengthSnoc(rs[..i], fs);
      if start < counter + |fs.s| && stop > counter {
        var piece := RenderRun(table, BaseFmtStr(Slice(fs.s, Max(0, start - counter), stop - counter), fs.atts));
        RenderWindowStep(table, rs[..i], fs, counter, start, stop, output, piece);
        if piece.Err? {
          return Err(piece.error);
        }
        r := Ok(output + piece.value);
      } else {
        WindowSkip(rs[..i], fs, counter, start, stop);
        r := Ok(output);
      }
    }

    /** `f[index]`: the bounds are normalised (integers select one character), then the
        overlapping pieces are rendered. */
    method GetItem(table: Table, index: Index) returns (r: Result<string>)
      ensures NormalizeSlice(Length(), index).Err? ==> r == Err(NotImplementedError)
      ensures NormalizeSlice(Length(), index).Ok? ==>
        var (a, b) := NormalizeSlice(Length(), index).value;
        r == RenderAll(table, Window(runs, a, b))
      ensures index == At(-1) ==> r == Ok("")
    {
      var bounds := NormalizeSlice(Length(), index);
      if bounds.Err? {
        return Err(bounds.error);
      }
      r := GetSlice(table, bounds.value.0, bounds.value.1);
      if bounds.value.1 <= 0 {
        WindowBeforeStart(runs, bounds.value.0, bounds.value.1);
      }
    }

    /** The loop of `f[start:stop] = value` over normalised bounds: the runs are rebuilt from
        a copy, each overlapping run leaving its front and back, with the value's runs
        inserted once. */
    method SetSlice(start: int, stop: int, vs: seq<BaseFmtStr>)
      modifies this
      requires Valid() && NoEmpty(vs)
      ensures runs == Splice(old(runs), start, stop, vs).out
      ensures Valid()
    {
      SpliceNoEmpty(runs, start, stop, vs);
      var counter := 0;
      var oldRuns := runs;
      var out := [];
      var inserted := false;
      var i := 0;
      while i < |oldRuns|
        invariant 0 <= i <= |oldRuns|
        invariant counter == TotalLength(oldRuns[..i])
        invariant Splice(oldRuns[..i], start, stop, vs) == SpliceState(out, inserted)
      {
        out, inserted := SpliceTurn(oldRuns, i, counter, start, stop, vs, out, inserted);
        counter := counter + |oldRuns[i].s|;
        i := i + 1;
      }
      assert oldRuns[..i] == oldRuns;
      runs := out;
    }

    /** One turn of that loop, for run `i` at offset `counter`: an overlapping run is cut
        around the range, any other run is copied. */
    static method SpliceTurn(rs: seq<BaseFmtStr>, i: nat, counter: int, start: int, stop: int,
                             vs: seq<BaseFmtStr>, out: seq<BaseFmtStr>, inserted: bool)
      returns (out': seq<BaseFmtStr>, inserted': bool)
      requires i < |rs| && counter == TotalLength(rs[..i])
      requires Splice(rs[..i], start, stop, vs) == SpliceState(out, inserted)
      ensures Splice(rs[..i + 1], start, stop, vs) == SpliceState(out', inserted')
      ensures TotalLength(rs[..i + 1]) == counter + |rs[i].s|
    {
      var fs := rs[i];
      SpliceSnoc(rs, i, start, stop, vs);
      if start < counter + |fs.s| && stop > counter {
        out', inserted' := SpliceRun(out, inserted, fs, counter, start, stop, vs);
      } else {
        out', inserted' := out + [fs], inserted;
      }
    }

    /** One turn of that loop for a run that overlaps the range: its front, then the value's
        runs the first time round, then its back, each only when it has text. */
    static method SpliceRun(out: seq<BaseFmtStr>, inserted: bool, fs: BaseFmtStr, counter: int,
                            start: int, stop: int, vs: seq<BaseFmtStr>)
      returns (out': seq<BaseFmtStr>, inserted': bool)
      requires start < counter + |fs.s| && stop > counter
      ensures SpliceState(out', inserted')
           == SpliceStep(SpliceState(out, inserted), fs, counter, start, stop, vs)
    {
      var front := Front(fs, counter, start);
      var back := Back(fs, counter, stop);
      SpliceStepOverlapping(SpliceState(out, inserted), fs, counter, start, stop, vs);
      out', inserted' := out, inserted;
      if |front.s| > 0 {
        out' := out' + [front];
      }
      if TotalLength(vs) > 0 && !inserted {
        out' := out' + vs;
        inserted' := true;
      }
      if |back.s| > 0 {
        out' := out' + [back];
      }
    }

    /** `f[index] = value`: the bounds are normalised, then a value that is neither a string
        (one run without attributes) nor a `FmtStr` raises `ValueError` before anything is
        changed; otherwise the runs are rebuilt around the value. A `FmtStr` value is a
        snapshot of a `FmtStr`, so it has no empty run either. */
    method SetItem(index: Index, value: Operand) returns (raised: Option<Error>)
      modifies this
      requires Valid() && (value.Formatted? ==> NoEmpty(value.runs))
      ensures NormalizeSlice(old(Length()), index).Err? ==>
        raised == Some(NotImplementedError) && runs == old(runs)
      ensures NormalizeSlice(old(Length()), index).Ok? && value.Other? ==>
        raised == Some(ValueError(BadSpliceValue)) && runs == old(runs)
      ensures NormalizeSlice(old(Length()), index).Ok? && !value.Other? ==>
        var (a, b) := NormalizeSlice(old(Length()), index).value;
        raised == None && runs == Splice(old(runs), a, b, ValueRuns(value)).out
      ensures index == At(-1) ==> runs == old(runs)
      ensures Valid()
    {
      var bounds := NormalizeSlice(Length(), index);
      if bounds.Err? {
        return Some(bounds.error);
      }
      var vs: seq<BaseFmtStr>;
      match value {
        case Text(t) =>
          var f := new FmtStr([BaseFmtStr(t, map[])]);
          vs := f.runs;
        case Formatted(b) =>
          vs := b;
        case Other =>
          return Some(ValueError(BadSpliceValue));
      }
      if bounds.value.1 <= 0 {
        SpliceOutside(runs, bounds.value.0, bounds.value.1, vs);
      }
      SetSlice(bounds.value.0, bounds.value.1, vs);
      raised := None;
    }
  }

  /** The runs a splice inserts: a string as one run without attributes (none if empty),
      a `FmtStr` as its own runs. */
  function ValueRuns(value: Operand): (vs: seq<BaseFmtStr>)
    requires !value.Other?
    ensures value.Text? ==> Plain(vs) == value.t && NoEmpty(vs)
    ensures value.Formatted? ==> vs == value.runs
  {
    match value
    case Text(t) => FilterSound([BaseFmtStr(t, map[])]); Filter([BaseFmtStr(t, map[])])
    case Formatted(b) => b
  }
}

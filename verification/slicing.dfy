/** What reading a slice selects from the runs, and how splice assignment rebuilds them. */
module Slicing {
  import opened Wrappers
  import opened PyText
  import opened Attributes
  import opened Base
  import opened Runs

  // ---------------------------------------------------------------------------------------
  // Reading: `f[start:stop]`

  /** What the run `fs`, starting at offset `c`, contributes to the slice: the part of its
      text inside the range, with its own attributes, if the run overlaps the range. */
  function Piece(fs: BaseFmtStr, c: int, start: int, stop: int): seq<BaseFmtStr>
  {
    if start < c + |fs.s| && stop > c then [BaseFmtStr(Slice(fs.s, Max(0, start - c), stop - c), fs.atts)]
    else []
  }

  /** The pieces that reading `[start, stop)` renders, in run order. */
  function Window(rs: seq<BaseFmtStr>, start: int, stop: int): seq<BaseFmtStr>
  {
    if rs == [] then []
    else
      var init := rs[..|rs| - 1];
      Window(init, start, stop) + Piece(rs[|rs| - 1], TotalLength(init), start, stop)
  }

  /** The text a run of text `t` at offset `|p|` contributes, appended to the clipped range
      of `p`, is the clipped range of `p + t`. */
  lemma PieceStep(p: string, t: string, start: int, stop: int)
    requires 0 <= start <= stop
    ensures var c, l := |p|, |t|;
      p[Min(start, c)..Min(stop, c)]
        + (if start < c + l && stop > c then Slice(t, Max(0, start - c), stop - c) else "")
      == (p + t)[Min(start, c + l)..Min(stop, c + l)]
  {
    if start < |p| + |t| && stop > |p| {
      PieceStepInside(p, t, start, stop);
    } else {
      PieceStepOutside(p, t, start, stop);
      assert p[Min(start, |p|)..Min(stop, |p|)] + "" == p[Min(start, |p|)..Min(stop, |p|)];
    }
  }

  /** `PieceStep` for a run `t` that overlaps the range. */
  lemma PieceStepInside(p: string, t: string, start: int, stop: int)
    requires 0 <= start <= stop && start < |p| + |t| && stop > |p|
    ensures var c, l := |p|, |t|;
      p[Min(start, c)..Min(stop, c)] + Slice(t, Max(0, start - c), stop - c)
      == (p + t)[Min(start, c + l)..Min(stop, c + l)]
  {
    if start >= |p| {
      PieceRight(p, t, start, stop);
    } else {
      PieceAcross(p, t, start, stop);
    }
  }

  /** A range that starts inside the run `t`. */
  lemma PieceRight(p: string, t: string, start: int, stop: int)
    requires |p| <= start < |p| + |t| && start <= stop
    ensures p[|p|..|p|] + Slice(t, start - |p|, stop - |p|) == (p + t)[start..Min(stop, |p| + |t|)]
  {
    var c, hi := |p|, Min(stop, |p| + |t|);
    if stop - c <= |t| {
      assert Slice(t, start - c, stop - c) == t[start - c..stop - c];
    } else {
      assert Slice(t, start - c, stop - c) == t[start - c..];
    }
    SliceRight(p, t, start, hi);
    assert p[c..c] == "";
  }

  /** A range that starts before the run `t` and ends inside or after it. */
  lemma PieceAcross(p: string, t: string, start: int, stop: int)
    requires 0 <= start < |p| < stop
    ensures p[start..|p|] + Slice(t, 0, stop - |p|) == (p + t)[start..Min(stop, |p| + |t|)]
  {
    var c, hi := |p|, Min(stop, |p| + |t|);
    assert Slice(t, 0, stop - c) == t[..hi - c];
    SliceAcross(p, t, start, hi);
  }

  /** `PieceStep` for a run `t` that lies before or after the range. */
  lemma PieceStepOutside(p: string, t: string, start: int, stop: int)
    requires 0 <= start <= stop && !(start < |p| + |t| && stop > |p|)
    ensures var c, l := |p|, |t|;
      p[Min(start, c)..Min(stop, c)] == (p + t)[Min(start, c + l)..Min(stop, c + l)]
  {
    var c, l := |p|, |t|;
    if stop <= c {
      assert (p + t)[start..stop] == p[start..stop];
    }
  }

  /** The text of the pieces of all runs is that of the pieces of all but the last run,
      followed by the text of the last run's piece. */
  lemma WindowSnocPlain(rs: seq<BaseFmtStr>, start: int, stop: int)
    requires rs != []
    ensures var init := rs[..|rs| - 1];
      Plain(Window(rs, start, stop))
      == Plain(Window(init, start, stop)) + Plain(Piece(rs[|rs| - 1], TotalLength(init), start, stop))
  {
    var init := rs[..|rs| - 1];
    PlainAppend(Window(init, start, stop), Piece(rs[|rs| - 1], TotalLength(init), start, stop));
  }

  /** A range of `p + t` inside `t`. */
  lemma SliceRight(p: string, t: string, i: int, j: int)
    requires |p| <= i <= j <= |p| + |t|
    ensures (p + t)[i..j] == t[i - |p|..j - |p|]
  {
    forall n | 0 <= n < j - i
      ensures (p + t)[i..j][n] == t[i - |p|..j - |p|][n]
    {
      assert (p + t)[i + n] == t[i + n - |p|];
    }
  }

  /** A range of `p + t` that straddles the join. */
  lemma SliceAcross(p: string, t: string, i: int, j: int)
    requires 0 <= i <= |p| <= j <= |p| + |t|
    ensures (p + t)[i..j] == p[i..] + t[..j - |p|]
  {
    assert (p + t)[i..j] == (p + t)[i..|p|] + (p + t)[|p|..j];
    assert (p + t)[i..|p|] == p[i..];
    SliceRight(p, t, |p|, j);
  }

  /** `PieceStep` with the texts given by name. */
  lemma ClipStep(pw: string, pp: string, p: string, t: string, start: int, stop: int, whole: string, n: nat)
    requires 0 <= start <= stop
    requires pw == p[Min(start, |p|)..Min(stop, |p|)]
    requires pp == if start < |p| + |t| && stop > |p| then Slice(t, Max(0, start - |p|), stop - |p|) else ""
    requires whole == p + t && n == |p| + |t|
    ensures pw + pp == whole[Min(start, n)..Min(stop, n)]
  {
    PieceStep(p, t, start, stop);
  }

  /** The plain text of the pieces is the part of the plain text in the range, clipped to
      what has been walked so far. */
  lemma {:induction false} WindowPlainClipped(rs: seq<BaseFmtStr>, start: int, stop: int)
    requires 0 <= start <= stop
    ensures var n := TotalLength(rs);
      Plain(Window(rs, start, stop)) == Plain(rs)[Min(start, n)..Min(stop, n)]
  {
    if rs != [] {
      var init, fs := rs[..|rs| - 1], rs[|rs| - 1];
      var c := TotalLength(init);
      var w, piece := Window(init, start, stop), Piece(fs, c, start, stop);
      var p := Plain(init);
      WindowSnocPlain(rs, start, stop);
      assert Plain(w) == p[Min(start, c)..Min(stop, c)] by {
        WindowPlainClipped(init, start, stop);
      }
      assert Plain(piece) == if start < c + |fs.s| && stop > c then Slice(fs.s, Max(0, start - c), stop - c) else "" by {
        PiecePlain(fs, c, start, stop);
      }
      assert Plain(rs) == p + fs.s && TotalLength(rs) == c + |fs.s| by {
        PlainSnoc(rs);
      }
      ClipStep(Plain(w), Plain(piece), p, fs.s, start, stop, Plain(rs), TotalLength(rs));
    }
  }

  /** The text of a piece. */
  lemma PiecePlain(fs: BaseFmtStr, c: int, start: int, stop: int)
    ensures Plain(Piece(fs, c, start, stop))
         == if start < c + |fs.s| && stop > c then Slice(fs.s, Max(0, start - c), stop - c) else ""
  {
    if start < c + |fs.s| && stop > c {
      PlainSingle(BaseFmtStr(Slice(fs.s, Max(0, start - c), stop - c), fs.atts));
    }
  }

  /** Reading `[start, stop)` selects exactly that part of the plain text. */
  lemma WindowPlain(rs: seq<BaseFmtStr>, start: int, stop: int)
    requires 0 <= start <= stop <= TotalLength(rs)
    ensures Plain(Window(rs, start, stop)) == Plain(rs)[start..stop]
  {
    WindowPlainClipped(rs, start, stop);
  }

  /** A range that starts at or after the end of the text selects no piece at all. */
  lemma {:induction false} WindowPastEnd(rs: seq<BaseFmtStr>, start: int, stop: int)
    requires TotalLength(rs) <= start
    ensures Window(rs, start, stop) == []
  {
    if rs != [] {
      PlainSnoc(rs);
      WindowPastEnd(rs[..|rs| - 1], start, stop);
    }
  }

  /** A range that ends at or before 0 selects no piece either; `f[-1]` is such a range. */
  lemma {:induction false} WindowBeforeStart(rs: seq<BaseFmtStr>, start: int, stop: int)
    requires stop <= 0
    ensures Window(rs, start, stop) == []
  {
    if rs != [] {
      WindowBeforeStart(rs[..|rs| - 1], start, stop);
    }
  }

  /** No run carries an attribute that rendering would apply. */
  predicate Unformatted(rs: seq<BaseFmtStr>)
  {
    forall i, k :: 0 <= i < |rs| && k in Kinds ==> KindName(k) !in rs[i].atts
  }

  /** Every piece carries the attribute dictionary of one of the runs, the run it was cut from. */
  lemma {:induction false} WindowKeepsAtts(rs: seq<BaseFmtStr>, start: int, stop: int)
    ensures forall j :: 0 <= j < |Window(rs, start, stop)| ==>
      exists i :: 0 <= i < |rs| && Window(rs, start, stop)[j].atts == rs[i].atts
  {
    if rs != [] {
      var init, last := rs[..|rs| - 1], rs[|rs| - 1];
      WindowKeepsAtts(init, start, stop);
      var w: seq<BaseFmtStr> := Window(init, start, stop);
      var piece: seq<BaseFmtStr> := Piece(last, TotalLength(init), start, stop);
      var win := Window(rs, start, stop);
      assert win == w + piece;
      forall j | 0 <= j < |win|
        ensures exists i :: 0 <= i < |rs| && win[j].atts == rs[i].atts
      {
        if j >= |w| {
          assert win[j] == piece[j - |w|];
          assert win[j].atts == rs[|rs| - 1].atts;
        } else {
          assert win[j] == w[j];
          var i :| 0 <= i < |init| && w[j].atts == init[i].atts;
          assert init[i] == rs[i];
        }
      }
    } else {
      assert Window(rs, start, stop) == [];
    }
  }

  /** Every piece keeps the attributes of the run it was cut from, so a string none of whose
      runs carries a renderable attribute yields pieces without one either. */
  lemma {:induction false} WindowWithoutKinds(rs: seq<BaseFmtStr>, start: int, stop: int)
    requires Unformatted(rs)
    ensures Unformatted(Window(rs, start, stop))
  {
    if rs != [] {
      var init, last := rs[..|rs| - 1], rs[|rs| - 1];
      assert Unformatted(init) by {
        forall i, k | 0 <= i < |init| && k in Kinds
          ensures KindName(k) !in init[i].atts
        {
          assert init[i] == rs[i];
        }
      }
      WindowWithoutKinds(init, start, stop);
      var w: seq<BaseFmtStr> := Window(init, start, stop);
      var piece: seq<BaseFmtStr> := Piece(last, TotalLength(init), start, stop);
      forall i, k | 0 <= i < |w + piece| && k in Kinds
        ensures KindName(k) !in (w + piece)[i].atts
      {
        if i >= |w| {
          assert (w + piece)[i] == piece[i - |w|];
          assert KindName(k) !in rs[|rs| - 1].atts;
        } else {
          assert (w + piece)[i] == w[i];
        }
      }
      assert Window(rs, start, stop) == w + piece;
    }
  }

  /** Reading `[start, stop)` of a string without renderable attributes gives exactly that
      part of its text. */
  lemma ReadUnformatted(table: Table, rs: seq<BaseFmtStr>, start: int, stop: int)
    requires Unformatted(rs)
    requires 0 <= start <= stop <= TotalLength(rs)
    ensures RenderAll(table, Window(rs, start, stop)) == Ok(Plain(rs)[start..stop])
  {
    WindowWithoutKinds(rs, start, stop);
    RenderAllWithoutKinds(table, Window(rs, start, stop));
    WindowPlain(rs, start, stop);
  }

  /** The pieces of `p` followed by one more run: those of `p`, then the piece of that run
      at the offset `p` reaches. */
  lemma WindowSnoc(p: seq<BaseFmtStr>, fs: BaseFmtStr, start: int, stop: int)
    ensures Window(p + [fs], start, stop) == Window(p, start, stop) + Piece(fs, TotalLength(p), start, stop)
  {
    assert (p + [fs])[..|p + [fs]| - 1] == p;
  }

  /** Rendering one more piece. */
  lemma RenderAllSnoc(table: Table, w: seq<BaseFmtStr>, x: BaseFmtStr)
    ensures RenderAll(table, w + [x]) ==
      match RenderAll(table, w)
      case Err(e) => Err(e)
      case Ok(a) =>
        match Render(table, x)
        case Err(e) => Err(e)
        case Ok(b) => Ok(a + b)
  {
    assert (w + [x])[..|w + [x]| - 1] == w;
  }

  /** The piece of a run that overlaps the range. */
  lemma PieceOverlap(fs: BaseFmtStr, c: int, start: int, stop: int)
    requires start < c + |fs.s| && stop > c
    ensures Piece(fs, c, start, stop) == [BaseFmtStr(Slice(fs.s, Max(0, start - c), stop - c), fs.atts)]
  {
  }

  /** One turn of the reading loop for a run `fs` that overlaps the range: the rendering of
      the pieces so far is extended by the rendering of `fs`'s piece, or fails with it. */
  lemma RenderWindowStep(table: Table, p: seq<BaseFmtStr>, fs: BaseFmtStr, c: int, start: int, stop: int,
                         output: string, piece: Result<string>)
    requires c == TotalLength(p) && start < c + |fs.s| && stop > c
    requires RenderAll(table, Window(p, start, stop)) == Ok(output)
    requires piece == Render(table, BaseFmtStr(Slice(fs.s, Max(0, start - c), stop - c), fs.atts))
    ensures piece.Err? ==> RenderAll(table, Window(p + [fs], start, stop)) == Err(piece.error)
    ensures piece.Ok? ==> RenderAll(table, Window(p + [fs], start, stop)) == Ok(output + piece.value)
  {
    WindowSnoc(p, fs, start, stop);
    PieceOverlap(fs, c, start, stop);
    RenderAllSnoc(table, Window(p, start, stop), BaseFmtStr(Slice(fs.s, Max(0, start - c), stop - c), fs.atts));
  }

  /** A run that does not overlap the range adds nothing to what reading selects. */
  lemma WindowSkip(p: seq<BaseFmtStr>, fs: BaseFmtStr, c: int, start: int, stop: int)
    requires c == TotalLength(p) && !(start < c + |fs.s| && stop > c)
    ensures Window(p + [fs], start, stop) == Window(p, start, stop)
  {
    WindowSnoc(p, fs, start, stop);
    assert Window(p, start, stop) + [] == Window(p, start, stop);
  }

  /** Once rendering a piece has failed, rendering the whole window fails the same way. */
  lemma {:induction false} RenderWindowFailed(table: Table, rs: seq<BaseFmtStr>, j: nat, start: int, stop: int)
    requires j <= |rs|
    requires RenderAll(table, Window(rs[..j], start, stop)).Err?
    ensures RenderAll(table, Window(rs, start, stop)) == RenderAll(table, Window(rs[..j], start, stop))
    decreases |rs| - j
  {
    if j < |rs| {
      var w := Window(rs[..j], start, stop);
      var piece := Piece(rs[j], TotalLength(rs[..j]), start, stop);
      assert rs[..j + 1][..j] == rs[..j];
      assert Window(rs[..j + 1], start, stop) == w + piece;
      RenderAllAppend(table, w, piece);
      RenderWindowFailed(table, rs, j + 1, start, stop);
    } else {
      assert rs[..j] == rs;
    }
  }

  // ---------------------------------------------------------------------------------------
  // Reference definitions: the attributed prefix and suffix of a list of runs

  /** The runs holding the first `k` characters, the last one cut, each keeping its
      attributes. */
  function Take(rs: seq<BaseFmtStr>, k: int): seq<BaseFmtStr>
  {
    if rs == [] || k <= 0 then []
    else if k >= |rs[0].s| then [rs[0]] + Take(rs[1..], k - |rs[0].s|)
    else [BaseFmtStr(rs[0].s[..k], rs[0].atts)]
  }

  /** The runs holding everything after the first `k` characters, the first one cut, each
      keeping its attributes. */
  function Drop(rs: seq<BaseFmtStr>, k: int): seq<BaseFmtStr>
  {
    if rs == [] then []
    else if k <= 0 then rs
    else if k >= |rs[0].s| then Drop(rs[1..], k - |rs[0].s|)
    else [BaseFmtStr(rs[0].s[k..], rs[0].atts)] + rs[1..]
  }

  lemma {:induction false} TakePlain(rs: seq<BaseFmtStr>, k: int)
    requires 0 <= k <= TotalLength(rs)
    ensures Plain(Take(rs, k)) == Plain(rs)[..k]
  {
    if rs != [] && k > 0 {
      var r := rs[0];
      if k >= |r.s| {
        TakePlain(rs[1..], k - |r.s|);
        PlainAppend([r], Take(rs[1..], k - |r.s|));
        assert [r][1..] == [];
      } else {
        assert [BaseFmtStr(r.s[..k], r.atts)][1..] == [];
      }
    }
  }

  lemma {:induction false} DropPlain(rs: seq<BaseFmtStr>, k: int)
    requires 0 <= k <= TotalLength(rs)
    ensures Plain(Drop(rs, k)) == Plain(rs)[k..]
  {
    if rs != [] && k > 0 {
      var r := rs[0];
      if k >= |r.s| {
        DropPlain(rs[1..], k - |r.s|);
      } else {
        var cut := BaseFmtStr(r.s[k..], r.atts);
        assert ([cut] + rs[1..])[0] == cut;
        assert ([cut] + rs[1..])[1..] == rs[1..];
      }
    }
  }

  lemma {:induction false} TakeNoEmpty(rs: seq<BaseFmtStr>, k: int)
    requires NoEmpty(rs)
    ensures NoEmpty(Take(rs, k))
  {
    if rs != [] && k > 0 && k >= |rs[0].s| {
      TakeNoEmpty(rs[1..], k - |rs[0].s|);
    }
  }

  lemma {:induction false} DropNoEmpty(rs: seq<BaseFmtStr>, k: int)
    requires NoEmpty(rs)
    ensures NoEmpty(Drop(rs, k))
  {
    if rs != [] && k > 0 && k >= |rs[0].s| {
      DropNoEmpty(rs[1..], k - |rs[0].s|);
    }
  }

  /** The runs `Take` keeps of a single run `fs` when it takes `k` characters. */
  function Head(fs: BaseFmtStr, k: int): seq<BaseFmtStr>
  {
    if k <= 0 then [] else if k >= |fs.s| then [fs] else [BaseFmtStr(fs.s[..k], fs.atts)]
  }

  /** The runs `Drop` keeps of a single run `fs` when it drops `k` characters. */
  function Tail(fs: BaseFmtStr, k: int): seq<BaseFmtStr>
  {
    if k <= 0 then [fs] else if k >= |fs.s| then [] else [BaseFmtStr(fs.s[k..], fs.atts)]
  }

  /** Taking from a list with one more run adds at most that run's head. */
  lemma {:induction false} TakeSnoc(p: seq<BaseFmtStr>, fs: BaseFmtStr, k: int)
    ensures Take(p + [fs], k) == Take(p, k) + Head(fs, k - TotalLength(p))
  {
    if p == [] {
      assert p + [fs] == [fs];
      assert [fs][1..] == [];
    } else if k > 0 {
      ConsSnoc(p, fs);
      var l0 := |p[0].s|;
      if k >= l0 {
        TakeSnoc(p[1..], fs, k - l0);
        SeqAssoc([p[0]], Take(p[1..], k - l0), Head(fs, k - TotalLength(p)));
      } else {
        assert Take(p, k) + [] == Take(p, k);
      }
    }
  }

  /** The head and the tail of `p` followed by one more run. */
  lemma ConsSnoc(p: seq<BaseFmtStr>, fs: BaseFmtStr)
    requires p != []
    ensures (p + [fs])[0] == p[0] && (p + [fs])[1..] == p[1..] + [fs]
  {
  }

  /** Dropping from a list with one more run adds at most that run's tail. */
  lemma {:induction false} DropSnoc(p: seq<BaseFmtStr>, fs: BaseFmtStr, k: int)
    ensures Drop(p + [fs], k) == Drop(p, k) + Tail(fs, k - TotalLength(p))
  {
    if p == [] {
      assert p + [fs] == [fs];
      assert [fs][1..] == [];
    } else if k > 0 {
      ConsSnoc(p, fs);
      var l0 := |p[0].s|;
      if k >= l0 {
        DropSnoc(p[1..], fs, k - l0);
      } else {
        var cut := BaseFmtStr(p[0].s[k..], p[0].atts);
        SeqAssoc([cut], p[1..], [fs]);
      }
    }
  }

  /** Nothing is left after the whole text. */
  lemma {:induction false} DropAll(rs: seq<BaseFmtStr>, k: int)
    requires NoEmpty(rs)
    requires 0 < k && TotalLength(rs) <= k
    ensures Drop(rs, k) == []
  {
    if rs != [] {
      if k > |rs[0].s| {
        DropAll(rs[1..], k - |rs[0].s|);
      }
    }
  }

  // ---------------------------------------------------------------------------------------
  // Writing: `f[start:stop] = value`

  /** The state of the rebuilding loop: the runs built so far and whether the value's runs
      have been inserted yet. */
  datatype SpliceState = SpliceState(out: seq<BaseFmtStr>, inserted: bool)

  /** One turn of the loop for the run `fs` at offset `c`. A run that overlaps the range
      leaves its front (the text before `start`) and its back (the text from `stop` on),
      each with the run's attributes and each only if non-empty; the value's runs go
      between them the first time, and only if the value is not empty. Any other run is
      kept as it is. */
  function SpliceStep(st: SpliceState, fs: BaseFmtStr, c: int, start: int, stop: int,
                      vs: seq<BaseFmtStr>): SpliceState
  {
    if start < c + |fs.s| && stop > c then
      var front := Front(fs, c, start);
      var back := Back(fs, c, stop);
      var insert := TotalLength(vs) > 0 && !st.inserted;
      SpliceState(
        st.out + (if |front.s| > 0 then [front] else [])
               + (if insert then vs else [])
               + (if |back.s| > 0 then [back] else []),
        st.inserted || insert)
    else
      SpliceState(st.out + [fs], st.inserted)
  }

  /** The part of an overlapping run at offset `c` that lies before `start`, with the run's
      attributes. */
  function Front(fs: BaseFmtStr, c: int, start: int): BaseFmtStr
  {
    BaseFmtStr(Slice(fs.s, 0, Max(0, start - c)), fs.atts)
  }

  /** The part of an overlapping run at offset `c` from `stop` on, with the run's attributes. */
  function Back(fs: BaseFmtStr, c: int, stop: int): BaseFmtStr
  {
    BaseFmtStr(Slice(fs.s, stop - c, |fs.s|), fs.atts)
  }

  /** The turn for an overlapping run, spelled out. */
  lemma SpliceStepOverlapping(st: SpliceState, fs: BaseFmtStr, c: int, start: int, stop: int,
                              vs: seq<BaseFmtStr>)
    requires start < c + |fs.s| && stop > c
    ensures var front, back := Front(fs, c, start), Back(fs, c, stop);
      var insert := TotalLength(vs) > 0 && !st.inserted;
      SpliceStep(st, fs, c, start, stop, vs) == SpliceState(
        st.out + (if |front.s| > 0 then [front] else [])
               + (if insert then vs else [])
               + (if |back.s| > 0 then [back] else []),
        st.inserted || insert)
  {
  }

  /** The state after the loop has walked all of `rs`. */
  function Splice(rs: seq<BaseFmtStr>, start: int, stop: int, vs: seq<BaseFmtStr>): SpliceState
  {
    if rs == [] then SpliceState([], false)
    else
      var init := rs[..|rs| - 1];
      SpliceStep(Splice(init, start, stop, vs), rs[|rs| - 1], TotalLength(init), start, stop, vs)
  }

  /** The loop's state after one more run, and the offset of the run after it. */
  lemma SpliceSnoc(rs: seq<BaseFmtStr>, i: nat, start: int, stop: int, vs: seq<BaseFmtStr>)
    requires i < |rs|
    ensures Splice(rs[..i + 1], start, stop, vs)
         == SpliceStep(Splice(rs[..i], start, stop, vs), rs[i], TotalLength(rs[..i]), start, stop, vs)
    ensures TotalLength(rs[..i + 1]) == TotalLength(rs[..i]) + |rs[i].s|
  {
    assert rs[..i + 1][..i] == rs[..i];
    PlainSnoc(rs[..i + 1]);
  }

  /** Splicing runs without empty text and a value without empty runs leaves no empty run. */
  lemma {:induction false} SpliceNoEmpty(rs: seq<BaseFmtStr>, start: int, stop: int, vs: seq<BaseFmtStr>)
    requires NoEmpty(rs) && NoEmpty(vs)
    ensures NoEmpty(Splice(rs, start, stop, vs).out)
  {
    if rs != [] {
      var init := rs[..|rs| - 1];
      SpliceNoEmpty(init, start, stop, vs);
      SpliceStepNoEmpty(Splice(init, start, stop, vs), rs[|rs| - 1], TotalLength(init), start, stop, vs);
    }
  }

  /** One turn adds only runs with text. */
  lemma SpliceStepNoEmpty(st: SpliceState, fs: BaseFmtStr, c: int, start: int, stop: int, vs: seq<BaseFmtStr>)
    requires NoEmpty(st.out) && NoEmpty(vs) && |fs.s| > 0
    ensures NoEmpty(SpliceStep(st, fs, c, start, stop, vs).out)
  {
    if start < c + |fs.s| && stop > c {
      var front, back := Front(fs, c, start), Back(fs, c, stop);
      var f := if |front.s| > 0 then [front] else [];
      var ins := if TotalLength(vs) > 0 && !st.inserted then vs else [];
      var b := if |back.s| > 0 then [back] else [];
      SpliceStepOverlapping(st, fs, c, start, stop, vs);
      NoEmptyAppend(st.out, f);
      NoEmptyAppend(st.out + f, ins);
      NoEmptyAppend(st.out + f + ins, b);
    } else {
      NoEmptyAppend(st.out, [fs]);
    }
  }

  /** A range that lies before the first or after the last character touches no run: every
      run is kept and the value is not inserted. */
  lemma {:induction false} SpliceOutside(rs: seq<BaseFmtStr>, start: int, stop: int, vs: seq<BaseFmtStr>)
    requires stop <= 0 || TotalLength(rs) <= start
    ensures Splice(rs, start, stop, vs) == SpliceState(rs, false)
  {
    if rs != [] {
      var init, last := rs[..|rs| - 1], rs[|rs| - 1];
      InitLast(rs);
      LengthSnoc(init, last);
      SpliceOutside(init, start, stop, vs);
    }
  }

  /** An empty range at a run boundary (the start and the end of the text included) touches
      no run, so `f[k:k] = value` there leaves the runs as they are and drops the value;
      only an empty range strictly inside a run inserts it. */
  lemma {:induction false} SpliceAtBoundary(rs: seq<BaseFmtStr>, j: nat, vs: seq<BaseFmtStr>)
    requires j <= |rs|
    ensures var k := TotalLength(rs[..j]);
      Splice(rs, k, k, vs) == SpliceState(rs, false)
  {
    var k := TotalLength(rs[..j]);
    if j == |rs| {
      assert rs[..j] == rs;
      SpliceOutside(rs, k, k, vs);
    } else {
      var init := rs[..|rs| - 1];
      assert init[..j] == rs[..j];
      SpliceAtBoundary(init, j, vs);
      PrefixLength(init, j);
      InitLast(rs);
    }
  }

  /** The value's runs, if they are inserted once `offset` characters have been walked. */
  function Inserted(offset: int, start: int, vs: seq<BaseFmtStr>): seq<BaseFmtStr>
  {
    if start < offset && TotalLength(vs) > 0 then vs else []
  }

  /** The loop's state after walking the runs `p` agrees with the reference: the attributed
      text before `start`, the value once `start` has been passed, the attributed text after
      `stop`. */
  predicate AgreesWithReference(p: seq<BaseFmtStr>, st: SpliceState, start: int, stop: int, vs: seq<BaseFmtStr>)
  {
    var c := TotalLength(p);
    st.inserted == (start < c && TotalLength(vs) > 0) &&
    st.out == Take(p, start) + Inserted(c, start, vs) + Drop(p, stop)
  }

  /** One turn of the loop keeps the state in agreement with the reference. */
  lemma SpliceStepReference(p: seq<BaseFmtStr>, fs: BaseFmtStr, st: SpliceState, start: int, stop: int,
                            vs: seq<BaseFmtStr>)
    requires NoEmpty(p) && |fs.s| > 0 && 0 <= start < stop
    requires AgreesWithReference(p, st, start, stop, vs)
    ensures AgreesWithReference(p + [fs], SpliceStep(st, fs, TotalLength(p), start, stop, vs), start, stop, vs)
  {
    var c := TotalLength(p);
    if start < c + |fs.s| && stop > c {
      ReferenceOverlap(p, fs, st, start, stop, vs);
    } else if stop <= c {
      ReferenceAfterRange(p, fs, st, start, stop, vs);
    } else {
      ReferenceBeforeRange(p, fs, st, start, stop, vs);
    }
  }

  /** A run that overlaps the range: its front joins the text before `start`, its back
      the text after `stop`. */
  lemma ReferenceOverlap(p: seq<BaseFmtStr>, fs: BaseFmtStr, st: SpliceState, start: int, stop: int,
                         vs: seq<BaseFmtStr>)
    requires NoEmpty(p) && 0 <= start < stop
    requires AgreesWithReference(p, st, start, stop, vs)
    requires var c := TotalLength(p); start < c + |fs.s| && stop > c
    ensures AgreesWithReference(p + [fs], SpliceStep(st, fs, TotalLength(p), start, stop, vs), start, stop, vs)
  {
    var c := TotalLength(p);
    LengthSnoc(p, fs);
    TakeOverlap(p, fs, start);
    DropOverlap(p, fs, stop);
    DropAll(p, stop);
    assert st.out == Take(p, start) + Inserted(c, start, vs) + [];
    SpliceStepOverlap(st, fs, c, start, stop, vs, Take(p, start));
  }

  /** A run after the range is kept as the last run of the text after `stop`. */
  lemma ReferenceAfterRange(p: seq<BaseFmtStr>, fs: BaseFmtStr, st: SpliceState, start: int, stop: int,
                            vs: seq<BaseFmtStr>)
    requires 0 <= start < stop
    requires AgreesWithReference(p, st, start, stop, vs)
    requires stop <= TotalLength(p)
    ensures AgreesWithReference(p + [fs], SpliceStep(st, fs, TotalLength(p), start, stop, vs), start, stop, vs)
  {
    var c := TotalLength(p);
    LengthSnoc(p, fs);
    TakeShort(p, fs, start);
    DropShort(p, fs, stop);
    SeqAssoc(Take(p, start) + Inserted(c, start, vs), Drop(p, stop), [fs]);
  }

  /** A run before the range is kept as the last run of the text before `start`. */
  lemma ReferenceBeforeRange(p: seq<BaseFmtStr>, fs: BaseFmtStr, st: SpliceState, start: int, stop: int,
                             vs: seq<BaseFmtStr>)
    requires NoEmpty(p) && |fs.s| > 0 && 0 <= start < stop
    requires AgreesWithReference(p, st, start, stop, vs)
    requires var c := TotalLength(p); c + |fs.s| <= start
    ensures AgreesWithReference(p + [fs], SpliceStep(st, fs, TotalLength(p), start, stop, vs), start, stop, vs)
  {
    var c := TotalLength(p);
    LengthSnoc(p, fs);
    TakeLong(p, fs, start);
    DropLong(p, fs, stop);
    DropAll(p, stop);
    EmptyTail(Take(p, start), [fs]);
  }

  lemma EmptyTail(x: seq<BaseFmtStr>, y: seq<BaseFmtStr>)
    ensures x + [] + [] + y == x + y + [] + []
  {
    assert x + [] + [] == x;
    assert x + y + [] + [] == x + y;
  }

  /** Taking no further than the runs `p` reach ignores a run after them. */
  lemma TakeShort(p: seq<BaseFmtStr>, fs: BaseFmtStr, k: int)
    requires k <= TotalLength(p)
    ensures Take(p + [fs], k) == Take(p, k)
  {
    TakeSnoc(p, fs, k);
  }

  /** Taking past a run takes all of it. */
  lemma TakeLong(p: seq<BaseFmtStr>, fs: BaseFmtStr, k: int)
    requires TotalLength(p) + |fs.s| <= k && |fs.s| > 0
    ensures Take(p + [fs], k) == Take(p, k) + [fs]
  {
    TakeSnoc(p, fs, k);
  }

  /** Dropping no further than the runs `p` reach keeps a run after them. */
  lemma DropShort(p: seq<BaseFmtStr>, fs: BaseFmtStr, k: int)
    requires k <= TotalLength(p)
    ensures Drop(p + [fs], k) == Drop(p, k) + [fs]
  {
    DropSnoc(p, fs, k);
  }

  /** Dropping past a run drops all of it. */
  lemma DropLong(p: seq<BaseFmtStr>, fs: BaseFmtStr, k: int)
    requires TotalLength(p) + |fs.s| <= k && |fs.s| > 0
    ensures Drop(p + [fs], k) == Drop(p, k)
  {
    DropSnoc(p, fs, k);
    assert Drop(p, k) + [] == Drop(p, k);
  }

  /** Taking up to a `start` inside the last run `fs` adds its front. */
  lemma TakeOverlap(p: seq<BaseFmtStr>, fs: BaseFmtStr, start: int)
    requires start < TotalLength(p) + |fs.s|
    ensures var c := TotalLength(p);
      Take(p + [fs], start) == Take(p, start) + if start <= c then [] else [BaseFmtStr(fs.s[..start - c], fs.atts)]
  {
    TakeSnoc(p, fs, start);
  }

  /** Dropping up to a `stop` past the runs `p` leaves at most the back of the last run. */
  lemma DropOverlap(p: seq<BaseFmtStr>, fs: BaseFmtStr, stop: int)
    requires NoEmpty(p) && TotalLength(p) < stop
    ensures var c := TotalLength(p);
      Drop(p + [fs], stop) == if stop >= c + |fs.s| then [] else [BaseFmtStr(fs.s[stop - c..], fs.atts)]
  {
    DropSnoc(p, fs, stop);
    DropAll(p, stop);
  }

  /** The turn for a run that overlaps the range: its front, then the value if it was not
      inserted before, then its back. */
  lemma SpliceStepOverlap(st: SpliceState, fs: BaseFmtStr, c: nat, start: int, stop: int,
                          vs: seq<BaseFmtStr>, before: seq<BaseFmtStr>)
    requires 0 <= start < c + |fs.s| && c < stop
    requires st.inserted == (start < c && TotalLength(vs) > 0)
    requires st.out == before + Inserted(c, start, vs)
    ensures SpliceStep(st, fs, c, start, stop, vs) == SpliceState(
      before + (if start <= c then [] else [BaseFmtStr(fs.s[..start - c], fs.atts)])
        + Inserted(c + |fs.s|, start, vs)
        + (if stop >= c + |fs.s| then [] else [BaseFmtStr(fs.s[stop - c..], fs.atts)]),
      start < c + |fs.s| && TotalLength(vs) > 0)
  {
    var front, back := Front(fs, c, start), Back(fs, c, stop);
    SpliceStepOverlapping(st, fs, c, start, stop, vs);
    FrontKept(fs, c, start);
    BackKept(fs, c, stop);
    InsertedStep(c, |fs.s|, start, vs, st.inserted);
    Regroup(before, Inserted(c, start, vs), if |front.s| > 0 then [front] else [],
            if TotalLength(vs) > 0 && !st.inserted then vs else [], Inserted(c + |fs.s|, start, vs),
            if |back.s| > 0 then [back] else []);
  }

  /** The front an overlapping run leaves: the text before `start`, if there is any. */
  lemma FrontKept(fs: BaseFmtStr, c: nat, start: int)
    requires 0 <= start < c + |fs.s|
    ensures var front := Front(fs, c, start);
      (if |front.s| > 0 then [front] else [])
      == if start <= c then [] else [BaseFmtStr(fs.s[..start - c], fs.atts)]
  {
    if start > c {
      assert Front(fs, c, start).s == fs.s[..start - c];
    }
  }

  /** The back an overlapping run leaves: the text from `stop` on, if there is any. */
  lemma BackKept(fs: BaseFmtStr, c: nat, stop: int)
    requires c < stop
    ensures var back := Back(fs, c, stop);
      (if |back.s| > 0 then [back] else [])
      == if stop >= c + |fs.s| then [] else [BaseFmtStr(fs.s[stop - c..], fs.atts)]
  {
    if stop < c + |fs.s| {
      assert Back(fs, c, stop).s == fs.s[stop - c..];
    }
  }

  /** The value is inserted by the first run that reaches past `start`. */
  lemma InsertedStep(c: nat, l: nat, start: int, vs: seq<BaseFmtStr>, inserted: bool)
    requires start < c + l && inserted == (start < c && TotalLength(vs) > 0)
    ensures Inserted(c, start, vs) + (if TotalLength(vs) > 0 && !inserted then vs else [])
         == Inserted(c + l, start, vs)
  {
  }

  /** When the value is already in, the front is empty, so the value may be moved past it. */
  lemma Regroup(b: seq<BaseFmtStr>, i0: seq<BaseFmtStr>, f: seq<BaseFmtStr>, ins: seq<BaseFmtStr>,
                i1: seq<BaseFmtStr>, k: seq<BaseFmtStr>)
    requires (i0 == [] || f == []) && i0 + ins == i1
    ensures b + i0 + f + ins + k == b + f + i1 + k
  {
    if i0 == [] {
      assert b + i0 == b;
    } else {
      assert i0 + f == i0;
    }
  }

  /** For a range `0 <= start < stop`, the rebuilt runs are the attributed text before
      `start`, then the value's runs exactly once (if the range touches the text and the
      value is not empty), then the attributed text after `stop`. */
  lemma {:induction false} SpliceReference(rs: seq<BaseFmtStr>, start: int, stop: int, vs: seq<BaseFmtStr>)
    requires NoEmpty(rs) && 0 <= start < stop
    ensures var c := TotalLength(rs);
      Splice(rs, start, stop, vs).inserted == (start < c && TotalLength(vs) > 0) &&
      Splice(rs, start, stop, vs).out == Take(rs, start) + Inserted(c, start, vs) + Drop(rs, stop)
  {
    if rs == [] {
    } else {
      var init, fs := rs[..|rs| - 1], rs[|rs| - 1];
      SpliceReference(init, start, stop, vs);
      SpliceStepReference(init, fs, Splice(init, start, stop, vs), start, stop, vs);
      InitLast(rs);
    }
  }

  /** Runs that all start at or after `stop` are copied as they are. */
  lemma {:induction false} SpliceSuffix(p: seq<BaseFmtStr>, q: seq<BaseFmtStr>, start: int, stop: int,
                                        vs: seq<BaseFmtStr>)
    requires stop <= TotalLength(p)
    ensures Splice(p + q, start, stop, vs)
         == SpliceState(Splice(p, start, stop, vs).out + q, Splice(p, start, stop, vs).inserted)
  {
    if q == [] {
      assert p + q == p;
      assert Splice(p, start, stop, vs).out + q == Splice(p, start, stop, vs).out;
    } else {
      var init, x := q[..|q| - 1], q[|q| - 1];
      SpliceSuffix(p, init, start, stop, vs);
      ConcatInit(p, q);
      PrefixLength(p + init, |p|);
      assert (p + init)[..|p|] == p;
      InitLast(q);
      SeqAssoc(Splice(p, start, stop, vs).out, init, [x]);
    }
  }

  /** The runs left by an empty range strictly inside run `fs`: that run is cut in two around
      the value, and every other run is kept. */
  lemma SpliceInsideRunRuns(p: seq<BaseFmtStr>, fs: BaseFmtStr, q: seq<BaseFmtStr>, k: int,
                            vs: seq<BaseFmtStr>)
    requires TotalLength(p) < k < TotalLength(p) + |fs.s|
    ensures var c := TotalLength(p);
      Splice(p + [fs] + q, k, k, vs).out
      == p + [BaseFmtStr(fs.s[..k - c], fs.atts)] + (if TotalLength(vs) > 0 then vs else [])
           + [BaseFmtStr(fs.s[k - c..], fs.atts)] + q
  {
    var c := TotalLength(p);
    var front, back := BaseFmtStr(fs.s[..k - c], fs.atts), BaseFmtStr(fs.s[k - c..], fs.atts);
    SpliceOutside(p, k, k, vs);
    ConcatInit(p, [fs]);
    assert [fs][..0] == [];
    assert p + [] == p;
    assert Front(fs, c, k) == front && Back(fs, c, k) == back;
    SpliceStepOverlapping(SpliceState(p, false), fs, c, k, k, vs);
    LengthSnoc(p, fs);
    SpliceSuffix(p + [fs], q, k, k, vs);
  }

  /** All but the last run of `p + q`, and the last run, for a non-empty `q`. */
  lemma ConcatInit(p: seq<BaseFmtStr>, q: seq<BaseFmtStr>)
    requires q != []
    ensures (p + q)[..|p + q| - 1] == p + q[..|q| - 1] && (p + q)[|p + q| - 1] == q[|q| - 1]
  {
  }

  /** Cutting a string that sits between two others. */
  lemma CutInside(a: string, t: string, b: string, j: nat)
    requires j <= |t|
    ensures (a + t + b)[..|a| + j] == a + t[..j]
    ensures (a + t + b)[|a| + j..] == t[j..] + b
  {
  }

  /** The plain text of a run list cut around a value. */
  lemma PlainCut(p: seq<BaseFmtStr>, front: BaseFmtStr, ins: seq<BaseFmtStr>, back: BaseFmtStr,
                 q: seq<BaseFmtStr>)
    ensures Plain(p + [front] + ins + [back] + q) == Plain(p) + front.s + Plain(ins) + back.s + Plain(q)
  {
    PlainAppend(p + [front] + ins + [back], q);
    PlainAppend(p + [front] + ins, [back]);
    PlainAppend(p + [front], ins);
    PlainAppend(p, [front]);
    PlainSingle(front);
    PlainSingle(back);
  }

  /** The plain text of a run list with one run picked out. */
  lemma PlainAround(p: seq<BaseFmtStr>, fs: BaseFmtStr, q: seq<BaseFmtStr>)
    ensures Plain(p + [fs] + q) == Plain(p) + fs.s + Plain(q)
  {
    PlainAppend(p + [fs], q);
    PlainAppend(p, [fs]);
    PlainSingle(fs);
  }

  /** A value's text put at offset `j` of `t`, inside `a + t + b`. */
  lemma InsertText(a: string, t: string, v: string, b: string, j: nat, whole: string, k: int)
    requires j <= |t| && whole == a + t + b && k == |a| + j
    ensures 0 <= k <= |whole|
    ensures a + t[..j] + v + t[j..] + b == whole[..k] + v + whole[k..]
  {
    CutInside(a, t, b, j);
  }

  /** An empty range strictly inside a run, in a string of any number of runs, inserts the
      value's text at that point (`[3:3] = 'x'` on runs `'ab'`, `'cd'` gives `'abcxd'`). */
  lemma SpliceInsideRun(p: seq<BaseFmtStr>, fs: BaseFmtStr, q: seq<BaseFmtStr>, k: int,
                        vs: seq<BaseFmtStr>)
    requires TotalLength(p) < k < TotalLength(p) + |fs.s|
    ensures k <= |Plain(p + [fs] + q)|
    ensures var rs := p + [fs] + q;
      Plain(Splice(rs, k, k, vs).out) == Plain(rs)[..k] + Plain(vs) + Plain(rs)[k..]
  {
    var rs := p + [fs] + q;
    SpliceInsideText(p, fs, q, k, vs);
    PlainAround(p, fs, q);
    InsertText(Plain(p), fs.s, Plain(vs), Plain(q), k - TotalLength(p), Plain(rs), k);
  }

  /** The text after splicing at `k` inside run `fs`, spelled out piece by piece. */
  lemma SpliceInsideText(p: seq<BaseFmtStr>, fs: BaseFmtStr, q: seq<BaseFmtStr>, k: int,
                         vs: seq<BaseFmtStr>)
    requires TotalLength(p) < k < TotalLength(p) + |fs.s|
    ensures var j := k - TotalLength(p);
      Plain(Splice(p + [fs] + q, k, k, vs).out)
        == Plain(p) + fs.s[..j] + Plain(vs) + fs.s[j..] + Plain(q)
  {
    var c := TotalLength(p);
    var front, back := BaseFmtStr(fs.s[..k - c], fs.atts), BaseFmtStr(fs.s[k - c..], fs.atts);
    var ins := if TotalLength(vs) > 0 then vs else [];
    SpliceInsideRunRuns(p, fs, q, k, vs);
    PlainCut(p, front, ins, back, q);
    assert Plain(ins) == Plain(vs);
  }

  /** A reversed range inside one run (`stop <= start`) keeps the run's text before `start`
      and its text from `stop` on: the value goes between them and, when `stop < start`,
      the text from `stop` to `start` appears twice (`f[5:3] = 'x'` on `'abcdefghij'` gives
      `'abcdexdefghij'`). */
  lemma SpliceReversed(fs: BaseFmtStr, start: int, stop: int, vs: seq<BaseFmtStr>)
    requires 0 < stop <= start < |fs.s| && TotalLength(vs) > 0
    ensures Splice([fs], start, stop, vs).out
         == [BaseFmtStr(fs.s[..start], fs.atts)] + vs + [BaseFmtStr(fs.s[stop..], fs.atts)]
    ensures Plain(Splice([fs], start, stop, vs).out) == fs.s[..start] + Plain(vs) + fs.s[stop..]
    ensures TotalLength(Splice([fs], start, stop, vs).out) == |fs.s| + TotalLength(vs) + (start - stop)
  {
    var front, back := BaseFmtStr(fs.s[..start], fs.atts), BaseFmtStr(fs.s[stop..], fs.atts);
    assert [fs][..0] == [] && TotalLength([]) == 0;
    assert Front(fs, 0, start) == front && Back(fs, 0, stop) == back;
    SpliceStepOverlapping(SpliceState([], false), fs, 0, start, stop, vs);
    assert Splice([fs], start, stop, vs).out == [] + [front] + vs + [back];
    assert [] + [front] + vs + [back] == [front] + vs + [back];
    PlainAppend([front] + vs, [back]);
    PlainAppend([front], vs);
    PlainSingle(front);
    PlainSingle(back);
  }

  /** `f[5:3] = 'x'` on `'abcdefghij'`. */
  lemma SampleReversedRange()
    ensures Plain(Splice([BaseFmtStr("abcdefghij", map[])], 5, 3, [BaseFmtStr("x", map[])]).out)
         == "abcdexdefghij"
  {
    var fs, x := BaseFmtStr("abcdefghij", map[]), BaseFmtStr("x", map[]);
    PlainSingle(x);
    SpliceReversed(fs, 5, 3, [x]);
    assert fs.s[..5] == "abcde" && fs.s[3..] == "defghij";
    assert "abcde" + "x" + "defghij" == "abcdexdefghij";
  }

  /** Splice assignment over `0 <= start < stop <= len(f)` replaces exactly that part of the
      plain text with the value's plain text. */
  lemma SplicePlain(rs: seq<BaseFmtStr>, start: int, stop: int, vs: seq<BaseFmtStr>)
    requires NoEmpty(rs) && 0 <= start < stop <= TotalLength(rs)
    ensures Plain(Splice(rs, start, stop, vs).out) == Plain(rs)[..start] + Plain(vs) + Plain(rs)[stop..]
    ensures TotalLength(Splice(rs, start, stop, vs).out) == TotalLength(rs) - (stop - start) + TotalLength(vs)
  {
    SpliceReference(rs, start, stop, vs);
    var c := TotalLength(rs);
    TakePlain(rs, start);
    DropPlain(rs, stop);
    PlainAppend(Take(rs, start), Inserted(c, start, vs));
    PlainAppend(Take(rs, start) + Inserted(c, start, vs), Drop(rs, stop));
  }
}

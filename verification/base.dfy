/** One text run with its attribute dictionary, and how it is rendered with escape codes. */
module Base {
  import opened Wrappers
  import opened PyText
  import opened Attributes

  datatype BaseFmtStr = BaseFmtStr(s: string, atts: Atts)

  /** `len(fs)`: the number of characters of the text; the attributes do not count. */
  function Len(fs: BaseFmtStr): nat { |fs.s| }

  /** The strings that the transformation for kind `k` puts before and after the text it
      wraps. A style called with a value other than `True`, or a colour called with `True`,
      is a call with the wrong number of arguments; a style missing from the style table is
      a failed lookup. */
  function Bracket(table: Table, k: Kind, v: Value): (r: Result<(string, string)>)
    ensures (k == Fg || k == Bg) ==> (r.Err? <==> v == Flag(true))
    ensures k != Fg && k != Bg && v != Flag(true) ==> r == Err(TypeError)
    ensures k != Fg && k != Bg && v == Flag(true) ==> (r.Err? <==> KindName(k) !in table.styles)
    ensures r.Err? ==> (r.error == KeyError <==> k != Fg && k != Bg && v == Flag(true))
    ensures r.Err? ==> r.error == TypeError || r.error == KeyError
    ensures r.Ok? ==> r.value.1 == (if k == Fg then table.resetFg
                                   else if k == Bg then table.resetBg else table.resetAll)
  {
    match k
    case Fg => if v == Flag(true) then Err(TypeError) else Ok((Prefix(Show(v)), table.resetFg))
    case Bg => if v == Flag(true) then Err(TypeError) else Ok((Prefix(Show(v)), table.resetBg))
    case _ =>
      var name := KindName(k);
      if v != Flag(true) then Err(TypeError)
      else if name !in table.styles then Err(KeyError)
      else Ok((Prefix(Decimal(table.styles[name])), table.resetAll))
  }

  /** The transformation of kind `k` that `atts` asks for, if it has that key. */
  function KindStep(table: Table, atts: Atts, k: Kind): Option<Result<(string, string)>>
  {
    var name := KindName(k);
    if name in atts then Some(Bracket(table, k, atts[name])) else None
  }

  /** Applies one transformation to a rendering so far. */
  function WrapText(x: Result<string>, step: Option<Result<(string, string)>>): Result<string>
  {
    match x
    case Err(e) => Err(e)
    case Ok(t) =>
      match step
      case None => Ok(t)
      case Some(Err(e)) => Err(e)
      case Some(Ok(b)) => Ok(b.0 + t + b.1)
  }

  /** Adds one transformation to the codes collected so far. */
  function WrapFrame(f: Result<(string, string)>, step: Option<Result<(string, string)>>): Result<(string, string)>
  {
    match f
    case Err(e) => Err(e)
    case Ok(p) =>
      match step
      case None => Ok(p)
      case Some(Err(e)) => Err(e)
      case Some(Ok(b)) => Ok((b.0 + p.0, p.1 + b.1))
  }

  /** The text of `fs` after the transformations of the first `n` kinds have been applied,
      each wrapping the result of the ones before it. */
  function RenderUpTo(table: Table, fs: BaseFmtStr, n: nat): Result<string>
    requires n <= |Kinds|
  {
    if n == 0 then Ok(fs.s)
    else WrapText(RenderUpTo(table, fs, n - 1), KindStep(table, fs.atts, Kinds[n - 1]))
  }

  /** `str(fs)`. */
  function Render(table: Table, fs: BaseFmtStr): Result<string>
  {
    RenderUpTo(table, fs, |Kinds|)
  }

  /** The escape codes the first `n` kinds of `atts` put before and after any text. */
  function FrameUpTo(table: Table, atts: Atts, n: nat): Result<(string, string)>
    requires n <= |Kinds|
  {
    if n == 0 then Ok(("", ""))
    else WrapFrame(FrameUpTo(table, atts, n - 1), KindStep(table, atts, Kinds[n - 1]))
  }

  /** A rendering `x` of the text `s` is `s` between the codes `f`, or fails as `f` does. */
  predicate Framed(x: Result<string>, f: Result<(string, string)>, s: string)
  {
    if f.Err? then x == Err(f.error) else x == Ok(f.value.0 + s + f.value.1)
  }

  /** One more transformation keeps a rendering framed. */
  lemma WrapStep(x: Result<string>, f: Result<(string, string)>, s: string,
                 step: Option<Result<(string, string)>>)
    requires Framed(x, f, s)
    ensures Framed(WrapText(x, step), WrapFrame(f, step), s)
  {
    if f.Ok? && step.Some? && step.value.Ok? {
      var b, p := step.value.value, f.value;
      assert b.0 + (p.0 + s + p.1) + b.1 == (b.0 + p.0) + s + (p.1 + b.1);
    }
  }

  /** Rendering brackets the text, unchanged, between escape codes that depend on the
      attributes alone; whether rendering fails depends on the attributes alone too. */
  lemma {:induction false} RenderUpToBrackets(table: Table, fs: BaseFmtStr, n: nat)
    requires n <= |Kinds|
    ensures Framed(RenderUpTo(table, fs, n), FrameUpTo(table, fs.atts, n), fs.s)
  {
    if n > 0 {
      RenderUpToBrackets(table, fs, n - 1);
      WrapStep(RenderUpTo(table, fs, n - 1), FrameUpTo(table, fs.atts, n - 1), fs.s,
               KindStep(table, fs.atts, Kinds[n - 1]));
    } else {
      assert "" + fs.s + "" == fs.s;
    }
  }

  lemma RenderBrackets(table: Table, fs: BaseFmtStr)
    ensures FrameUpTo(table, fs.atts, |Kinds|).Err? ==>
      Render(table, fs) == Err(FrameUpTo(table, fs.atts, |Kinds|).error)
    ensures FrameUpTo(table, fs.atts, |Kinds|).Ok? ==>
      var f := FrameUpTo(table, fs.atts, |Kinds|).value;
      Render(table, fs) == Ok(f.0 + fs.s + f.1)
  {
    RenderUpToBrackets(table, fs, |Kinds|);
  }

  /** Keys that are not one of the six kinds are skipped: a run without any renders as
      its bare text. */
  lemma {:induction false} RenderWithoutKinds(table: Table, fs: BaseFmtStr, n: nat)
    requires n <= |Kinds|
    requires forall k :: k in Kinds ==> KindName(k) !in fs.atts
    ensures RenderUpTo(table, fs, n) == Ok(fs.s)
  {
    if n > 0 {
      RenderWithoutKinds(table, fs, n - 1);
      assert Kinds[n - 1] in Kinds;
    }
  }

  /** `BaseFmtStr.__str__` as the source writes it: a loop that rewraps `s` kind by kind. */
  method RenderRun(table: Table, fs: BaseFmtStr) returns (r: Result<string>)
    ensures r == Render(table, fs)
  {
    var s := fs.s;
    var i := 0;
    while i < |Kinds|
      invariant 0 <= i <= |Kinds|
      invariant RenderUpTo(table, fs, i) == Ok(s)
    {
      var k := KindName(Kinds[i]);
      if k in fs.atts {
        var b := Bracket(table, Kinds[i], fs.atts[k]);
        if b.Err? {
          RenderStaysFailed(table, fs, i + 1);
          return Err(b.error);
        }
        s := b.value.0 + s + b.value.1;
      }
      i := i + 1;
    }
    r := Ok(s);
  }

  /** Once a transformation fails, rendering fails with that error. */
  lemma {:induction false} RenderStaysFailed(table: Table, fs: BaseFmtStr, n: nat)
    requires 0 < n <= |Kinds|
    requires RenderUpTo(table, fs, n).Err?
    ensures Render(table, fs) == RenderUpTo(table, fs, n)
    decreases |Kinds| - n
  {
    if n < |Kinds| {
      RenderStaysFailed(table, fs, n + 1);
    }
  }
}

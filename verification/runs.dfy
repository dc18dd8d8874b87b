/** The algebra of `FmtStr` on its list of runs: length, plain text, construction,
    concatenation, rendering, the read window and the splice. */
module Runs {
  import opened Wrappers
  import opened PyText
  import opened Attributes
  import opened Base

  /** `FmtStr.s`: the texts of the runs joined in order, without escape codes. */
  function Plain(rs: seq<BaseFmtStr>): string
  {
    if rs == [] then "" else rs[0].s + Plain(rs[1..])
  }

  /** `len(f)`: the sum of the run lengths, which is the length of the plain text. */
  function TotalLength(rs: seq<BaseFmtStr>): (n: nat)
    ensures n == |Plain(rs)|
  {
    if rs == [] then 0 else Len(rs[0]) + TotalLength(rs[1..])
  }

  lemma {:induction false} PlainAppend(a: seq<BaseFmtStr>, b: seq<BaseFmtStr>)
    ensures Plain(a + b) == Plain(a) + Plain(b)
  {
    if a == [] {
      assert a + b == b;
    } else {
      assert (a + b)[0] == a[0];
      assert (a + b)[1..] == a[1..] + b;
      PlainAppend(a[1..], b);
    }
  }

  /** The plain text of all but the last run, followed by the last run's text. */
  lemma PlainSnoc(rs: seq<BaseFmtStr>)
    requires rs != []
    ensures Plain(rs) == Plain(rs[..|rs| - 1]) + rs[|rs| - 1].s
    ensures TotalLength(rs) == TotalLength(rs[..|rs| - 1]) + |rs[|rs| - 1].s|
  {
    var init, last := rs[..|rs| - 1], rs[|rs| - 1];
    assert rs == init + [last];
    PlainAppend(init, [last]);
    PlainSingle(last);
  }

  /** The first `i + 1` runs are the first `i` followed by run `i`. */
  lemma PrefixSnoc(rs: seq<BaseFmtStr>, i: nat)
    requires i < |rs|
    ensures rs[..i + 1] == rs[..i] + [rs[i]]
  {
  }

  /** A non-empty list is all but its last run followed by its last run. */
  lemma InitLast(rs: seq<BaseFmtStr>)
    requires rs != []
    ensures rs == rs[..|rs| - 1] + [rs[|rs| - 1]]
  {
  }

  /** A prefix of the runs is no longer than all of them. */
  lemma PrefixLength(rs: seq<BaseFmtStr>, j: nat)
    requires j <= |rs|
    ensures TotalLength(rs[..j]) <= TotalLength(rs)
  {
    assert |Plain(rs)| == |Plain(rs[..j])| + |Plain(rs[j..])| by {
      SplitAt(rs, j);
      PlainAppend(rs[..j], rs[j..]);
    }
  }

  /** The length of `p` followed by one more run. */
  lemma LengthSnoc(p: seq<BaseFmtStr>, fs: BaseFmtStr)
    ensures TotalLength(p + [fs]) == TotalLength(p) + |fs.s|
  {
    PlainAppend(p, [fs]);
    PlainSingle(fs);
  }

  lemma PlainSingle(x: BaseFmtStr)
    ensures Plain([x]) == x.s
  {
    assert [x][1..] == [];
    assert x.s + "" == x.s;
  }

  /** Where run `i` starts in the plain text: the length of the runs before it. */
  function Offset(rs: seq<BaseFmtStr>, i: nat): nat
    requires i <= |rs|
  {
    TotalLength(rs[..i])
  }

  /** `text` holds run `i`'s text at the run's offset. */
  predicate Spells(text: string, rs: seq<BaseFmtStr>, i: nat)
    requires i < |rs|
  {
    Offset(rs, i) + |rs[i].s| <= |text| && text[Offset(rs, i)..Offset(rs, i) + |rs[i].s|] == rs[i].s
  }

  /** The middle of three joined strings. */
  lemma MidSlice(a: string, b: string, c: string)
    ensures (a + b + c)[|a|..|a| + |b|] == b
  {
  }

  /** Run `i` spells the plain text from the end of the runs before it. */
  lemma PlainSegment(rs: seq<BaseFmtStr>, i: nat)
    requires i < |rs|
    ensures Spells(Plain(rs), rs, i)
  {
    var tail := rs[i..];
    assert Plain(tail) == rs[i].s + Plain(rs[i + 1..]) by {
      assert tail[0] == rs[i] && tail[1..] == rs[i + 1..];
    }
    assert Plain(rs) == Plain(rs[..i]) + Plain(tail) by {
      SplitAt(rs, i);
      PlainAppend(rs[..i], tail);
    }
    SpellsMiddle(rs, i, Plain(rs[..i]), Plain(rs[i + 1..]));
  }

  lemma SplitAt(rs: seq<BaseFmtStr>, i: nat)
    requires i <= |rs|
    ensures rs == rs[..i] + rs[i..]
  {
  }

  /** A run whose text sits between the text of the runs before it and some rest. */
  lemma SpellsMiddle(rs: seq<BaseFmtStr>, i: nat, a: string, c: string)
    requires i < |rs| && a == Plain(rs[..i]) && Plain(rs) == a + (rs[i].s + c)
    ensures Spells(Plain(rs), rs, i)
  {
    MidSlice(a, rs[i].s, c);
  }

  /** Every run spells its own part of the plain text. */
  lemma PlainSegments(rs: seq<BaseFmtStr>)
    ensures forall i :: 0 <= i < |rs| ==> Spells(Plain(rs), rs, i)
  {
    forall i | 0 <= i < |rs|
      ensures Spells(Plain(rs), rs, i)
    {
      PlainSegment(rs, i);
    }
  }

  /** The invariant of `FmtStr`: no run is empty. */
  predicate NoEmpty(rs: seq<BaseFmtStr>)
  {
    forall i :: 0 <= i < |rs| ==> |rs[i].s| > 0
  }

  lemma NoEmptyAppend(a: seq<BaseFmtStr>, b: seq<BaseFmtStr>)
    requires NoEmpty(a) && NoEmpty(b)
    ensures NoEmpty(a + b)
  {
    forall i | 0 <= i < |a + b|
      ensures |(a + b)[i].s| > 0
    {
      if i >= |a| {
        assert (a + b)[i] == b[i - |a|];
      }
    }
  }

  /** The part of a component that `Filter` keeps: the component unless its text is empty. */
  function Keep(x: BaseFmtStr): seq<BaseFmtStr>
  {
    if |x.s| > 0 then [x] else []
  }

  /** `FmtStr(*components)`: the components with empty text are dropped. */
  function Filter(cs: seq<BaseFmtStr>): seq<BaseFmtStr>
  {
    if cs == [] then [] else Keep(cs[0]) + Filter(cs[1..])
  }

  /** The stored runs are not empty and spell the same text as the components. */
  lemma {:induction false} FilterSound(cs: seq<BaseFmtStr>)
    ensures NoEmpty(Filter(cs))
    ensures Plain(Filter(cs)) == Plain(cs)
  {
    if cs != [] {
      FilterSound(cs[1..]);
      PlainAppend(Keep(cs[0]), Filter(cs[1..]));
      assert Plain(Keep(cs[0])) == cs[0].s by {
        if |cs[0].s| > 0 {
          assert [cs[0]][1..] == [];
        }
      }
    }
  }

  lemma FilterHead(a: seq<BaseFmtStr>, b: seq<BaseFmtStr>)
    requires a != []
    ensures Filter(a + b) == Keep(a[0]) + Filter(a[1..] + b)
  {
    assert (a + b)[0] == a[0];
    assert (a + b)[1..] == a[1..] + b;
  }

  /** Filtering keeps the order of the components: it distributes over concatenation. */
  lemma {:induction false} FilterAppend(a: seq<BaseFmtStr>, b: seq<BaseFmtStr>)
    ensures Filter(a + b) == Filter(a) + Filter(b)
  {
    if a == [] {
      assert a + b == b;
    } else {
      FilterHead(a, b);
      FilterAppend(a[1..], b);
      SeqAssoc(Keep(a[0]), Filter(a[1..]), Filter(b));
    }
  }

  lemma SeqAssoc(x: seq<BaseFmtStr>, y: seq<BaseFmtStr>, z: seq<BaseFmtStr>)
    ensures x + (y + z) == (x + y) + z
  {
  }

  /** A list without empty runs is stored as it is. */
  lemma {:induction false} FilterNoEmpty(cs: seq<BaseFmtStr>)
    requires NoEmpty(cs)
    ensures Filter(cs) == cs
  {
    if cs != [] {
      FilterNoEmpty(cs[1..]);
    }
  }

  /** The right operand of `+` and of splice assignment: a byte string (`Text`), a `FmtStr`
      (`Formatted`), or anything else (`Other`). Both operations test for `str`, so a unicode
      string is `Other`: `+` raises `TypeError` for it and splice assignment `ValueError`. */
  datatype Operand = Text(t: string) | Formatted(runs: seq<BaseFmtStr>) | Other

  /** `a + other`: the runs of both sides, or a plain string as one run without attributes. */
  function Concat(a: seq<BaseFmtStr>, other: Operand): (r: Result<seq<BaseFmtStr>>)
    ensures r.Err? <==> other.Other?
    ensures r.Err? ==> r.error == TypeError
    ensures r.Ok? ==> NoEmpty(r.value)
  {
    match other
    case Formatted(b) => FilterSound(a + b); Ok(Filter(a + b))
    case Text(t) => FilterSound(a + [BaseFmtStr(t, map[])]); Ok(Filter(a + [BaseFmtStr(t, map[])]))
    case Other => Err(TypeError)
  }

  /** Adding two `FmtStr`s copies the runs of both, in order, and nothing else. */
  lemma ConcatFormatted(a: seq<BaseFmtStr>, b: seq<BaseFmtStr>)
    requires NoEmpty(a) && NoEmpty(b)
    ensures Concat(a, Formatted(b)) == Ok(a + b)
    ensures TotalLength(a + b) == TotalLength(a) + TotalLength(b)
    ensures Plain(a + b) == Plain(a) + Plain(b)
  {
    assert NoEmpty(a + b);
    FilterNoEmpty(a + b);
    PlainAppend(a, b);
  }

  /** Adding a plain string is adding one run without attributes (none at all if the
      string is empty). */
  lemma ConcatText(a: seq<BaseFmtStr>, t: string)
    requires NoEmpty(a)
    ensures Concat(a, Text(t)) == Concat(a, Formatted([BaseFmtStr(t, map[])]))
    ensures Concat(a, Text(t)) == Ok(a + if t == "" then [] else [BaseFmtStr(t, map[])])
    ensures Plain(Concat(a, Text(t)).value) == Plain(a) + t
  {
    var run := BaseFmtStr(t, map[]);
    FilterAppend(a, [run]);
    FilterNoEmpty(a);
    assert Filter([run]) == Keep(run) by {
      assert [run][1..] == [];
      assert Keep(run) + [] == Keep(run);
    }
    PlainAppend(a, Keep(run));
    assert Plain(Keep(run)) == t by {
      if t != "" {
        assert [run][1..] == [];
        assert t + "" == t;
      }
    }
  }

  /** `str(f)`: the rendered runs joined in order; the first failing run decides the error. */
  function RenderAll(table: Table, rs: seq<BaseFmtStr>): Result<string>
  {
    if rs == [] then Ok("")
    else
      match RenderAll(table, rs[..|rs| - 1])
      case Err(e) => Err(e)
      case Ok(x) =>
        match Render(table, rs[|rs| - 1])
        case Err(e) => Err(e)
        case Ok(y) => Ok(x + y)
  }

  /** The rendering of a concatenation is the concatenation of the renderings. */
  lemma {:induction false} RenderAllAppend(table: Table, a: seq<BaseFmtStr>, b: seq<BaseFmtStr>)
    ensures RenderAll(table, a + b) ==
      match RenderAll(table, a)
      case Err(e) => Err(e)
      case Ok(x) =>
        match RenderAll(table, b)
        case Err(e) => Err(e)
        case Ok(y) => Ok(x + y)
  {
    if b == [] {
      assert a + b == a;
      if RenderAll(table, a).Ok? {
        assert RenderAll(table, a).value + "" == RenderAll(table, a).value;
      }
    } else {
      var b' := b[..|b| - 1];
      assert (a + b)[..|a + b| - 1] == a + b';
      assert (a + b)[|a + b| - 1] == b[|b| - 1];
      RenderAllAppend(table, a, b');
      if RenderAll(table, a).Ok? && RenderAll(table, b').Ok? && Render(table, b[|b| - 1]).Ok? {
        var x, y, z := RenderAll(table, a).value, RenderAll(table, b').value, Render(table, b[|b| - 1]).value;
        assert x + y + z == x + (y + z);
      }
    }
  }

  /** `str(f)` succeeds exactly when every run renders; otherwise it raises the error of the
      first run that fails. */
  lemma {:induction false} RenderAllFirstError(table: Table, rs: seq<BaseFmtStr>)
    ensures RenderAll(table, rs).Ok? <==> forall i :: 0 <= i < |rs| ==> Render(table, rs[i]).Ok?
    ensures RenderAll(table, rs).Err? ==>
      exists i :: 0 <= i < |rs| && Render(table, rs[i]) == Err(RenderAll(table, rs).error)
        && forall j :: 0 <= j < i ==> Render(table, rs[j]).Ok?
  {
    if rs != [] {
      var init := rs[..|rs| - 1];
      RenderAllFirstError(table, init);
      assert forall i :: 0 <= i < |init| ==> init[i] == rs[i];
      if RenderAll(table, init).Ok? && Render(table, rs[|rs| - 1]).Err? {
        assert Render(table, rs[|rs| - 1]) == Err(RenderAll(table, rs).error);
      }
    }
  }

  /** A string none of whose runs has a known attribute renders as its plain text. */
  lemma {:induction false} RenderAllWithoutKinds(table: Table, rs: seq<BaseFmtStr>)
    requires forall i, k :: 0 <= i < |rs| && k in Kinds ==> KindName(k) !in rs[i].atts
    ensures RenderAll(table, rs) == Ok(Plain(rs))
  {
    if rs != [] {
      RenderAllWithoutKinds(table, rs[..|rs| - 1]);
      RenderWithoutKinds(table, rs[|rs| - 1], |Kinds|);
      PlainSnoc(rs);
    }
  }

  /** `set_attributes(**attributes)`: every run's dictionary gets `atts[k] = v` for each
      pair; the texts are not touched. */
  function SetAll(rs: seq<BaseFmtStr>, attributes: Atts): (r: seq<BaseFmtStr>)
    ensures |r| == |rs|
    ensures forall i :: 0 <= i < |rs| ==> r[i].s == rs[i].s
    ensures forall i, k :: 0 <= i < |rs| && k in attributes ==> k in r[i].atts && r[i].atts[k] == attributes[k]
    ensures forall i, k :: 0 <= i < |rs| && k !in attributes ==>
      (k in r[i].atts <==> k in rs[i].atts) && (k in rs[i].atts ==> r[i].atts[k] == rs[i].atts[k])
  {
    seq(|rs|, i requires 0 <= i < |rs| => BaseFmtStr(rs[i].s, rs[i].atts + attributes))
  }

  /** Setting no attributes changes nothing. */
  lemma SetAllNothing(rs: seq<BaseFmtStr>)
    ensures SetAll(rs, map[]) == rs
  {
    forall i | 0 <= i < |rs|
      ensures SetAll(rs, map[])[i] == rs[i]
    {
      assert rs[i].atts + map[] == rs[i].atts;
    }
  }

  /** Setting the same attributes twice gives the same runs as setting them once. */
  lemma SetAllIdempotent(rs: seq<BaseFmtStr>, attributes: Atts)
    ensures SetAll(SetAll(rs, attributes), attributes) == SetAll(rs, attributes)
  {
    var once := SetAll(rs, attributes);
    forall i | 0 <= i < |rs|
      ensures SetAll(once, attributes)[i] == once[i]
    {
      assert once[i].atts + attributes == once[i].atts;
    }
  }

  /** Setting attributes keeps the plain text and the invariant. */
  lemma {:induction false} SetAllPlain(rs: seq<BaseFmtStr>, attributes: Atts)
    ensures Plain(SetAll(rs, attributes)) == Plain(rs)
    ensures NoEmpty(rs) ==> NoEmpty(SetAll(rs, attributes))
  {
    if rs != [] {
      assert SetAll(rs, attributes)[1..] == SetAll(rs[1..], attributes);
      SetAllPlain(rs[1..], attributes);
    }
  }
}

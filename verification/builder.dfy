/** `fmtstr(string, *args, **kwargs)`: parses the attributes, then either applies them to an
    existing `FmtStr` in place or wraps a plain string in a new one-run `FmtStr`. */
module Builder {
  import opened Wrappers
  import opened Attributes
  import opened Base
  import opened Runs
  import opened Args
  import opened Fmt

  /** What `fmtstr` is called on: a byte string, an existing `FmtStr`, or anything else
      (a unicode string included). */
  datatype Subject = PlainText(t: string) | Existing(f: FmtStr) | Unsupported

  /** Attribute errors are raised before the subject is looked at; an existing `FmtStr` is
      updated and returned itself; a string becomes a new `FmtStr` with one run carrying all
      the attributes (none when the string is empty). */
  method Build(t: Table, subject: Subject, args: seq<Value>, kwargs: Atts) returns (r: Result<FmtStr>)
    modifies if subject.Existing? then {subject.f} else {}
    requires subject.Existing? ==> subject.f.Valid()
    ensures ParseArgsSpec(t, args, kwargs).Err? ==>
      r == Err(ParseArgsSpec(t, args, kwargs).error)
      && (subject.Existing? ==> subject.f.runs == old(subject.f.runs))
    ensures ParseArgsSpec(t, args, kwargs).Ok? && subject.Existing? ==>
      r == Ok(subject.f)
      && subject.f.runs == SetAll(old(subject.f.runs), ParseArgsSpec(t, args, kwargs).value)
      && subject.f.Valid()
      && Plain(subject.f.runs) == Plain(old(subject.f.runs))
    ensures ParseArgsSpec(t, args, kwargs).Ok? && subject.PlainText? ==>
      r.Ok? && fresh(r.value) && r.value.Valid()
      && r.value.runs == Filter([BaseFmtStr(subject.t, ParseArgsSpec(t, args, kwargs).value)])
    ensures ParseArgsSpec(t, args, kwargs).Ok? && subject.Unsupported? ==>
      r == Err(ValueError(BadInput))
  {
    var atts := ParseArgs(t, args, kwargs);
    if atts.Err? {
      return Err(atts.error);
    }
    match subject {
      case Existing(f) =>
        SetAllPlain(f.runs, atts.value);
        f.SetAttributes(atts.value);
        r := Ok(f);
      case PlainText(s) =>
        var f := new FmtStr([BaseFmtStr(s, atts.value)]);
        r := Ok(f);
      case Unsupported =>
        r := Err(ValueError(BadInput));
    }
  }

  /** A new string's text is the string, and it is rendered as the string with every
      attribute applied. */
  lemma BuiltFromText(t: Table, s: string, atts: Atts)
    ensures Plain(Filter([BaseFmtStr(s, atts)])) == s
    ensures s != "" ==> RenderAll(t, Filter([BaseFmtStr(s, atts)])) == Render(t, BaseFmtStr(s, atts))
  {
    FilterSound([BaseFmtStr(s, atts)]);
    assert Plain([BaseFmtStr(s, atts)]) == s + Plain([]);
    if s != "" {
      assert Filter([BaseFmtStr(s, atts)]) == [BaseFmtStr(s, atts)];
      assert [BaseFmtStr(s, atts)][..0] == [];
      match Render(t, BaseFmtStr(s, atts)) {
        case Ok(x) => assert "" + x == x;
        case Err(_) =>
      }
    }
  }
}

/** `parse_args`: turns positional attribute names and keyword attributes into one attribute
    dictionary, refusing conflicting, unknown or out-of-table attributes. */
module Args {
  import opened Wrappers
  import opened PyText
  import opened Attributes

  /** A positional name that selects a foreground colour: its lower-case form is a colour. */
  predicate IsFgName(t: Table, a: string)
  {
    Lower(a) in t.fgColors
  }

  /** A positional name that selects a background colour: `on_` followed by a colour, both
      compared in lower case. */
  predicate IsBgName(t: Table, a: string)
  {
    |a| >= 3 && Lower(a)[..3] == "on_" && Lower(a[3..]) in t.bgColors
  }

  /** A positional name that selects a style. */
  predicate IsStyleName(t: Table, a: string)
  {
    Lower(a) in t.styles
  }

  /** One turn of the loop over the positional arguments. The tests compare lower-case
      forms, but the colour code is looked up with the name as given (so a colour in
      upper case raises `KeyError`) and a style is stored under the name as given. */
  function ApplyArg(t: Table, kw: Atts, arg: Value): (r: Result<Atts>)
    ensures r.Ok? ==> kw.Keys <= r.value.Keys
    ensures r.Ok? ==> arg.Str? && (IsFgName(t, arg.t) || IsBgName(t, arg.t) || IsStyleName(t, arg.t))
    ensures arg.Str? && IsFgName(t, arg.t) && "fg" in kw ==> r == Err(ValueError(FgTwice))
    ensures arg.Str? && !IsFgName(t, arg.t) && IsBgName(t, arg.t) && "bg" in kw ==> r == Err(ValueError(BgTwice))
    ensures !arg.Str? ==> r == Err(ValueError(NonStringArg))
  {
    match arg
    case Str(a) =>
      if IsFgName(t, a) then
        if "fg" in kw then Err(ValueError(FgTwice))
        else if a in t.fgColors then Ok(kw["fg" := Num(t.fgColors[a])])
        else Err(KeyError)
      else if IsBgName(t, a) then
        if "bg" in kw then Err(ValueError(BgTwice))
        else if a[3..] in t.bgColors then Ok(kw["bg" := Num(t.bgColors[a[3..]])])
        else Err(KeyError)
      else if IsStyleName(t, a) then
        Ok(kw[a := Flag(true)])
      else
        Err(ValueError(UnknownArg))
    case _ => Err(ValueError(NonStringArg))
  }

  /** The loop over the positional arguments: the first failing argument decides the error. */
  function ApplyArgs(t: Table, kw: Atts, args: seq<Value>): Result<Atts>
  {
    if args == [] then Ok(kw)
    else
      match ApplyArgs(t, kw, args[..|args| - 1])
      case Err(e) => Err(e)
      case Ok(kw') => ApplyArg(t, kw', args[|args| - 1])
  }

  /** A keyword `parse_args` accepts. */
  predicate KnownKey(t: Table, k: string)
  {
    k == "fg" || k == "bg" || k in t.styles
  }

  /** A colour keyword: a table name becomes its code, and the code must be in the table.
      Only a string can name a colour; `True` counts as the code 1. */
  function Resolve(v: Value, codes: map<string, int>, reason: Reason): (r: Result<Value>)
    ensures r.Ok? <==> InCodes(if v.Str? && v.t in codes then Num(codes[v.t]) else v, codes)
    ensures r.Ok? ==> InCodes(r.value, codes) && !r.value.Str?
    ensures r.Err? ==> r.error == ValueError(reason)
    ensures v.Str? && v.t in codes ==> r == Ok(Num(codes[v.t]))
    ensures !v.Str? && InCodes(v, codes) ==> r == Ok(v)
  {
    var w := if v.Str? && v.t in codes then Num(codes[v.t]) else v;
    if InCodes(w, codes) then Ok(w) else Err(ValueError(reason))
  }

  /** The positional arguments once a `style` keyword has been moved to their end. */
  function MergedArgs(args: seq<Value>, kwargs: Atts): seq<Value>
  {
    if "style" in kwargs then args + [kwargs["style"]] else args
  }

  /** The keyword arguments once a `style` keyword has been removed. */
  function MergedKwargs(kwargs: Atts): Atts
  {
    kwargs - {"style"}
  }

  /** What `parse_args(args, kwargs)` returns or raises. */
  function ParseArgsSpec(t: Table, args: seq<Value>, kwargs: Atts): (r: Result<Atts>)
    ensures r.Ok? ==> forall k :: k in r.value ==> KnownKey(t, k)
    ensures r.Ok? && "fg" in r.value ==> InCodes(r.value["fg"], t.fgColors) && !r.value["fg"].Str?
    ensures r.Ok? && "bg" in r.value ==> InCodes(r.value["bg"], t.bgColors) && !r.value["bg"].Str?
    ensures r.Ok? ==> MergedKwargs(kwargs).Keys <= r.value.Keys
  {
    match ApplyArgs(t, MergedKwargs(kwargs), MergedArgs(args, kwargs))
    case Err(e) => Err(e)
    case Ok(kw) =>
      ApplyArgsKeys(t, MergedKwargs(kwargs), MergedArgs(args, kwargs));
      if exists k :: k in kw && !KnownKey(t, k) then Err(ValueError(UnknownKey))
      else
        match ResolveKey(kw, "fg", t.fgColors, BadFg)
        case Err(e) => Err(e)
        case Ok(kw') =>
          match ResolveKey(kw', "bg", t.bgColors, BadBg)
          case Err(e) => Err(e)
          case Ok(kw'') => Ok(kw'')
  }

  /** The `fg` or `bg` check: resolves the key's value when it is present. */
  function ResolveKey(kw: Atts, key: string, codes: map<string, int>, reason: Reason): (r: Result<Atts>)
    ensures r.Ok? ==> r.value.Keys == kw.Keys
    ensures r.Ok? ==> forall k :: k in kw && k != key ==> r.value[k] == kw[k]
    ensures r.Ok? && key in kw ==> InCodes(r.value[key], codes) && !r.value[key].Str?
    ensures key !in kw ==> r == Ok(kw)
    ensures key in kw && kw[key].Str? && kw[key].t in codes ==> r == Ok(kw[key := Num(codes[kw[key].t])])
    ensures key in kw && !kw[key].Str? && InCodes(kw[key], codes) ==> r == Ok(kw)
  {
    assert key in kw ==> kw[key := kw[key]] == kw;
    if key !in kw then Ok(kw)
    else
      match Resolve(kw[key], codes, reason)
      case Err(e) => Err(e)
      case Ok(v) => Ok(kw[key := v])
  }

  /** Keys already present survive the positional loop. */
  lemma {:induction false} ApplyArgsKeys(t: Table, kw: Atts, args: seq<Value>)
    ensures ApplyArgs(t, kw, args).Ok? ==> kw.Keys <= ApplyArgs(t, kw, args).value.Keys
  {
    if args != [] {
      ApplyArgsKeys(t, kw, args[..|args| - 1]);
    }
  }

  /** Once an argument has failed, every longer argument list fails the same way. */
  lemma {:induction false} ApplyArgsFailed(t: Table, kw: Atts, args: seq<Value>, n: nat)
    requires n <= |args|
    requires ApplyArgs(t, kw, args[..n]).Err?
    ensures ApplyArgs(t, kw, args) == ApplyArgs(t, kw, args[..n])
  {
    if n < |args| {
      assert args[..|args| - 1][..n] == args[..n];
      ApplyArgsFailed(t, kw, args[..|args| - 1], n);
    } else {
      assert args[..n] == args;
    }
  }

  /** The positional loop reaches argument `j` with the state left by the ones before it:
      if that argument fails, the whole loop fails. */
  lemma ApplyArgsAt(t: Table, kw: Atts, args: seq<Value>, j: nat)
    requires j < |args|
    requires ApplyArgs(t, kw, args[..j]).Ok?
    requires ApplyArg(t, ApplyArgs(t, kw, args[..j]).value, args[j]).Err?
    ensures ApplyArgs(t, kw, args).Err?
  {
    assert args[..j + 1][..j] == args[..j];
    ApplyArgsFailed(t, kw, args, j + 1);
  }

  /** Every argument list either fails or is a list of names each of some kind. */
  lemma {:induction false} ApplyArgsNames(t: Table, kw: Atts, args: seq<Value>, j: nat)
    requires j < |args|
    requires ApplyArgs(t, kw, args).Ok?
    ensures args[j].Str? && (IsFgName(t, args[j].t) || IsBgName(t, args[j].t) || IsStyleName(t, args[j].t))
  {
    if ApplyArgs(t, kw, args[..j]).Err? {
      ApplyArgsFailed(t, kw, args, j);
    } else if ApplyArg(t, ApplyArgs(t, kw, args[..j]).value, args[j]).Err? {
      ApplyArgsAt(t, kw, args, j);
    }
  }

  /** After a foreground name has been applied, `fg` stays set to the name's code. */
  lemma {:induction false} ApplyArgsFgSet(t: Table, kw: Atts, args: seq<Value>, j: nat)
    requires j < |args| && args[j].Str? && IsFgName(t, args[j].t)
    requires ApplyArgs(t, kw, args).Ok?
    ensures ApplyArgs(t, kw, args[..j + 1]).Ok? && "fg" in ApplyArgs(t, kw, args[..j + 1]).value
  {
    if ApplyArgs(t, kw, args[..j + 1]).Err? {
      ApplyArgsFailed(t, kw, args, j + 1);
    } else {
      assert args[..j + 1][..j] == args[..j];
    }
  }

  /** After a background name has been applied, `bg` stays set. */
  lemma {:induction false} ApplyArgsBgSet(t: Table, kw: Atts, args: seq<Value>, j: nat)
    requires j < |args| && args[j].Str? && IsBgName(t, args[j].t) && !IsFgName(t, args[j].t)
    requires ApplyArgs(t, kw, args).Ok?
    ensures ApplyArgs(t, kw, args[..j + 1]).Ok? && "bg" in ApplyArgs(t, kw, args[..j + 1]).value
  {
    if ApplyArgs(t, kw, args[..j + 1]).Err? {
      ApplyArgsFailed(t, kw, args, j + 1);
    } else {
      assert args[..j + 1][..j] == args[..j];
    }
  }

  /** A key set before position `j` is still set when argument `j` is reached. */
  lemma ApplyArgsKeyKept(t: Table, kw: Atts, args: seq<Value>, i: nat, j: nat, key: string)
    requires i <= j <= |args|
    requires ApplyArgs(t, kw, args[..j]).Ok? && ApplyArgs(t, kw, args[..i]).Ok?
    requires key in ApplyArgs(t, kw, args[..i]).value
    ensures key in ApplyArgs(t, kw, args[..j]).value
  {
    assert args[..j][..i] == args[..i];
    ApplyArgsSuffix(t, kw, args[..j], i);
    ApplyArgsKeys(t, ApplyArgs(t, kw, args[..i]).value, args[..j][i..]);
  }

  /** The loop over a list is the loop over its tail, started from the state its head left. */
  lemma {:induction false} ApplyArgsSuffix(t: Table, kw: Atts, args: seq<Value>, i: nat)
    requires i <= |args|
    requires ApplyArgs(t, kw, args[..i]).Ok?
    ensures ApplyArgs(t, kw, args) == ApplyArgs(t, ApplyArgs(t, kw, args[..i]).value, args[i..])
  {
    if i == |args| {
      assert args[..i] == args;
      assert args[i..] == [];
    } else {
      assert args[..|args| - 1][..i] == args[..i];
      ApplyArgsSuffix(t, kw, args[..|args| - 1], i);
      assert args[i..][..|args[i..]| - 1] == args[..|args| - 1][i..];
    }
  }

  /** Two foreground names (`'red', 'blue'`) raise an error. */
  lemma TwoFgNamesFail(t: Table, args: seq<Value>, kwargs: Atts, i: nat, j: nat)
    requires i < j < |args|
    requires args[i].Str? && IsFgName(t, args[i].t) && args[j].Str? && IsFgName(t, args[j].t)
    ensures ParseArgsSpec(t, args, kwargs).Err?
  {
    var all := MergedArgs(args, kwargs);
    var kw := MergedKwargs(kwargs);
    assert all[i] == args[i] && all[j] == args[j];
    if ApplyArgs(t, kw, all).Ok? {
      ApplyArgsFgSet(t, kw, all, i);
      ApplyArgsFailedOr(t, kw, all, j);
      ApplyArgsKeyKept(t, kw, all, i + 1, j, "fg");
      ApplyArgsAt(t, kw, all, j);
    }
  }

  /** Two background names (`'on_red', 'on_blue'`) raise an error. */
  lemma TwoBgNamesFail(t: Table, args: seq<Value>, kwargs: Atts, i: nat, j: nat)
    requires i < j < |args|
    requires args[i].Str? && IsBgName(t, args[i].t) && !IsFgName(t, args[i].t)
    requires args[j].Str? && IsBgName(t, args[j].t) && !IsFgName(t, args[j].t)
    ensures ParseArgsSpec(t, args, kwargs).Err?
  {
    var all := MergedArgs(args, kwargs);
    var kw := MergedKwargs(kwargs);
    assert all[i] == args[i] && all[j] == args[j];
    if ApplyArgs(t, kw, all).Ok? {
      ApplyArgsBgSet(t, kw, all, i);
      ApplyArgsFailedOr(t, kw, all, j);
      ApplyArgsKeyKept(t, kw, all, i + 1, j, "bg");
      ApplyArgsAt(t, kw, all, j);
    }
  }

  /** A foreground keyword together with a foreground name raises an error. */
  lemma FgKeywordAndNameFail(t: Table, args: seq<Value>, kwargs: Atts, j: nat)
    requires "fg" in kwargs
    requires j < |args| && args[j].Str? && IsFgName(t, args[j].t)
    ensures ParseArgsSpec(t, args, kwargs).Err?
  {
    var all := MergedArgs(args, kwargs);
    var kw := MergedKwargs(kwargs);
    assert all[j] == args[j];
    if ApplyArgs(t, kw, all).Ok? {
      ApplyArgsFailedOr(t, kw, all, j);
      assert all[..0] == [];
      ApplyArgsKeyKept(t, kw, all, 0, j, "fg");
      ApplyArgsAt(t, kw, all, j);
    }
  }

  /** An argument that is not a string, or a name of no known kind, raises an error. */
  lemma UnknownArgFails(t: Table, args: seq<Value>, kwargs: Atts, j: nat)
    requires j < |args|
    requires !(args[j].Str? && (IsFgName(t, args[j].t) || IsBgName(t, args[j].t) || IsStyleName(t, args[j].t)))
    ensures ParseArgsSpec(t, args, kwargs).Err?
  {
    var all := MergedArgs(args, kwargs);
    assert all[j] == args[j];
    if ApplyArgs(t, MergedKwargs(kwargs), all).Ok? {
      ApplyArgsNames(t, MergedKwargs(kwargs), all, j);
    }
  }

  /** A keyword other than `style`, `fg`, `bg` or a style name raises an error. */
  lemma UnknownKeyFails(t: Table, args: seq<Value>, kwargs: Atts, k: string)
    requires k in kwargs && k != "style" && !KnownKey(t, k)
    ensures ParseArgsSpec(t, args, kwargs).Err?
  {
    assert k in MergedKwargs(kwargs);
  }

  /** When the loop succeeds, the loop up to any argument succeeded too. */
  lemma ApplyArgsFailedOr(t: Table, kw: Atts, args: seq<Value>, j: nat)
    requires j <= |args|
    requires ApplyArgs(t, kw, args).Ok?
    ensures ApplyArgs(t, kw, args[..j]).Ok?
  {
    if ApplyArgs(t, kw, args[..j]).Err? {
      ApplyArgsFailed(t, kw, args, j);
    }
  }

  /** The positional loop over the merged arguments. */
  function Applied(t: Table, args: seq<Value>, kwargs: Atts): Result<Atts>
  {
    ApplyArgs(t, MergedKwargs(kwargs), MergedArgs(args, kwargs))
  }

  /** A key whose value no later argument can change: it holds `True`, which a style name
      would store again, or it is `fg` or `bg` and no style shares its name, so a second
      colour name raises instead. */
  predicate Settled(t: Table, kw: Atts, key: string)
  {
    key in kw && (kw[key] == Flag(true) || ((key == "fg" || key == "bg") && key !in t.styles))
  }

  /** One argument leaves a settled key as it is. */
  lemma ApplyArgKeeps(t: Table, kw: Atts, arg: Value, key: string)
    requires Settled(t, kw, key) && ApplyArg(t, kw, arg).Ok?
    ensures key in ApplyArg(t, kw, arg).value && ApplyArg(t, kw, arg).value[key] == kw[key]
  {
    assert Lower("fg") == "fg" && Lower("bg") == "bg";
  }

  /** The positional loop leaves a settled key as it is. */
  lemma {:induction false} ApplyArgsKeeps(t: Table, kw: Atts, args: seq<Value>, key: string)
    requires Settled(t, kw, key) && ApplyArgs(t, kw, args).Ok?
    ensures key in ApplyArgs(t, kw, args).value && ApplyArgs(t, kw, args).value[key] == kw[key]
  {
    if args != [] {
      var init := args[..|args| - 1];
      ApplyArgsKeeps(t, kw, init, key);
      ApplyArgKeeps(t, ApplyArgs(t, kw, init).value, args[|args| - 1], key);
    }
  }

  /** Argument `j` of a successful loop, applied to the state the arguments before it left. */
  lemma ApplyArgsPrefix(t: Table, kw: Atts, args: seq<Value>, j: nat)
    requires j < |args| && ApplyArgs(t, kw, args).Ok?
    ensures ApplyArgs(t, kw, args[..j]).Ok?
    ensures ApplyArgs(t, kw, args[..j + 1]) == ApplyArg(t, ApplyArgs(t, kw, args[..j]).value, args[j])
    ensures ApplyArgs(t, kw, args[..j + 1]).Ok?
    ensures ApplyArgs(t, kw, args) == ApplyArgs(t, ApplyArgs(t, kw, args[..j + 1]).value, args[j + 1..])
  {
    ApplyArgsFailedOr(t, kw, args, j);
    ApplyArgsFailedOr(t, kw, args, j + 1);
    assert args[..j + 1][..j] == args[..j];
    ApplyArgsSuffix(t, kw, args, j + 1);
  }

  /** A key that the positional loop leaves settled at position `j` ends with the value it
      had there. */
  lemma SettledAt(t: Table, kw: Atts, args: seq<Value>, j: nat, key: string)
    requires j < |args| && ApplyArgs(t, kw, args).Ok?
    requires ApplyArgs(t, kw, args[..j + 1]).Ok? && Settled(t, ApplyArgs(t, kw, args[..j + 1]).value, key)
    ensures key in ApplyArgs(t, kw, args).value
    ensures ApplyArgs(t, kw, args).value[key] == ApplyArgs(t, kw, args[..j + 1]).value[key]
  {
    ApplyArgsPrefix(t, kw, args, j);
    ApplyArgsKeeps(t, ApplyArgs(t, kw, args[..j + 1]).value, args[j + 1..], key);
  }

  /** The `fg` and `bg` checks keep a key that already holds a code of its table, and any
      other key. */
  lemma ResolvedKept(t: Table, kw: Atts, key: string, r: Atts)
    requires key in kw
    requires key == "fg" ==> InCodes(kw[key], t.fgColors) && !kw[key].Str?
    requires key == "bg" ==> InCodes(kw[key], t.bgColors) && !kw[key].Str?
    requires ResolveKey(kw, "fg", t.fgColors, BadFg).Ok?
    requires ResolveKey(ResolveKey(kw, "fg", t.fgColors, BadFg).value, "bg", t.bgColors, BadBg) == Ok(r)
    ensures key in r && r[key] == kw[key]
  {
  }

  /** `parse_args` ends with the dictionary of the positional loop, `fg` and `bg` resolved. */
  lemma ParseArgsResolves(t: Table, args: seq<Value>, kwargs: Atts)
    requires ParseArgsSpec(t, args, kwargs).Ok?
    ensures Applied(t, args, kwargs).Ok?
    ensures ResolveKey(Applied(t, args, kwargs).value, "fg", t.fgColors, BadFg).Ok?
    ensures ResolveKey(ResolveKey(Applied(t, args, kwargs).value, "fg", t.fgColors, BadFg).value,
                       "bg", t.bgColors, BadBg) == ParseArgsSpec(t, args, kwargs)
  {
  }

  /** A foreground name given positionally leaves `fg` holding that name's code. */
  lemma FgNameCode(t: Table, args: seq<Value>, kwargs: Atts, j: nat)
    requires j < |args| && args[j].Str? && IsFgName(t, args[j].t) && "fg" !in t.styles
    requires ParseArgsSpec(t, args, kwargs).Ok?
    ensures args[j].t in t.fgColors
    ensures "fg" in ParseArgsSpec(t, args, kwargs).value
    ensures ParseArgsSpec(t, args, kwargs).value["fg"] == Num(t.fgColors[args[j].t])
  {
    var all, kw := MergedArgs(args, kwargs), MergedKwargs(kwargs);
    ParseArgsResolves(t, args, kwargs);
    assert all[j] == args[j];
    ApplyArgsPrefix(t, kw, all, j);
    SettledAt(t, kw, all, j, "fg");
    ResolvedKept(t, Applied(t, args, kwargs).value, "fg", ParseArgsSpec(t, args, kwargs).value);
  }

  /** A background name `on_<colour>` given positionally leaves `bg` holding that colour's
      code. */
  lemma BgNameCode(t: Table, args: seq<Value>, kwargs: Atts, j: nat)
    requires j < |args| && args[j].Str? && IsBgName(t, args[j].t) && !IsFgName(t, args[j].t)
    requires "bg" !in t.styles
    requires ParseArgsSpec(t, args, kwargs).Ok?
    ensures args[j].t[3..] in t.bgColors
    ensures "bg" in ParseArgsSpec(t, args, kwargs).value
    ensures ParseArgsSpec(t, args, kwargs).value["bg"] == Num(t.bgColors[args[j].t[3..]])
  {
    var all, kw := MergedArgs(args, kwargs), MergedKwargs(kwargs);
    ParseArgsResolves(t, args, kwargs);
    assert all[j] == args[j];
    ApplyArgsPrefix(t, kw, all, j);
    SettledAt(t, kw, all, j, "bg");
    ResolvedKept(t, Applied(t, args, kwargs).value, "bg", ParseArgsSpec(t, args, kwargs).value);
  }

  /** A style name given positionally is stored, under the name as given, as `True`. */
  lemma StyleNameSet(t: Table, args: seq<Value>, kwargs: Atts, j: nat)
    requires j < |args| && args[j].Str? && IsStyleName(t, args[j].t)
    requires !IsFgName(t, args[j].t) && !IsBgName(t, args[j].t)
    requires "fg" !in t.styles && "bg" !in t.styles
    requires ParseArgsSpec(t, args, kwargs).Ok?
    ensures args[j].t in ParseArgsSpec(t, args, kwargs).value
    ensures ParseArgsSpec(t, args, kwargs).value[args[j].t] == Flag(true)
  {
    var all, kw := MergedArgs(args, kwargs), MergedKwargs(kwargs);
    ParseArgsResolves(t, args, kwargs);
    assert all[j] == args[j];
    assert Lower("fg") == "fg" && Lower("bg") == "bg";
    ApplyArgsPrefix(t, kw, all, j);
    SettledAt(t, kw, all, j, args[j].t);
    ResolvedKept(t, Applied(t, args, kwargs).value, args[j].t, ParseArgsSpec(t, args, kwargs).value);
  }

  /** A colour keyword that names a colour of its table ends as that colour's code. */
  lemma ColourKeywordCode(t: Table, args: seq<Value>, kwargs: Atts, key: string)
    requires key == "fg" || key == "bg"
    requires key in kwargs && kwargs[key].Str? && key !in t.styles
    requires kwargs[key].t in (if key == "fg" then t.fgColors else t.bgColors)
    requires ParseArgsSpec(t, args, kwargs).Ok?
    ensures key in ParseArgsSpec(t, args, kwargs).value
    ensures ParseArgsSpec(t, args, kwargs).value[key]
         == Num((if key == "fg" then t.fgColors else t.bgColors)[kwargs[key].t])
  {
    var kw := MergedKwargs(kwargs);
    ParseArgsResolves(t, args, kwargs);
    ApplyArgsKeeps(t, kw, MergedArgs(args, kwargs), key);
  }

  /** A colour keyword whose value is neither a name nor a code of its table makes the parse
      fail: with `ValueError` from the colour check, unless an earlier check fails first. */
  lemma BadColourKeywordFails(t: Table, args: seq<Value>, kwargs: Atts, key: string)
    requires key == "fg" || key == "bg"
    requires key in kwargs && key !in t.styles
    requires Resolve(kwargs[key], if key == "fg" then t.fgColors else t.bgColors, BadFg).Err?
    ensures ParseArgsSpec(t, args, kwargs).Err?
  {
    if ParseArgsSpec(t, args, kwargs).Ok? {
      ParseArgsResolves(t, args, kwargs);
      ApplyArgsKeeps(t, MergedKwargs(kwargs), MergedArgs(args, kwargs), key);
      assert false;
    }
  }

  /** The loop of `parse_args` over the positional arguments, updating the keyword
      dictionary in place. */
  method ApplyAll(t: Table, kwargs: Atts, args: seq<Value>) returns (r: Result<Atts>)
    ensures r == ApplyArgs(t, kwargs, args)
  {
    var kw := kwargs;
    var i := 0;
    while i < |args|
      invariant 0 <= i <= |args|
      invariant ApplyArgs(t, kwargs, args[..i]) == Ok(kw)
    {
      assert args[..i + 1][..i] == args[..i];
      var arg := args[i];
      if !arg.Str? {
        ApplyArgsFailed(t, kwargs, args, i + 1);
        return Err(ValueError(NonStringArg));
      }
      var a := arg.t;
      if IsFgName(t, a) {
        if "fg" in kw {
          ApplyArgsFailed(t, kwargs, args, i + 1);
          return Err(ValueError(FgTwice));
        }
        if a !in t.fgColors {
          ApplyArgsFailed(t, kwargs, args, i + 1);
          return Err(KeyError);
        }
        kw := kw["fg" := Num(t.fgColors[a])];
      } else if IsBgName(t, a) {
        if "bg" in kw {
          ApplyArgsFailed(t, kwargs, args, i + 1);
          return Err(ValueError(BgTwice));
        }
        if a[3..] !in t.bgColors {
          ApplyArgsFailed(t, kwargs, args, i + 1);
          return Err(KeyError);
        }
        kw := kw["bg" := Num(t.bgColors[a[3..]])];
      } else if IsStyleName(t, a) {
        kw := kw[a := Flag(true)];
      } else {
        ApplyArgsFailed(t, kwargs, args, i + 1);
        return Err(ValueError(UnknownArg));
      }
      i := i + 1;
    }
    assert args[..i] == args;
    r := Ok(kw);
  }

  /** The body of `parse_args`: the `style` keyword joins the positional names, the names are
      applied one by one, every key is checked, then `fg` and `bg` are resolved to codes. */
  method ParseArgs(t: Table, args: seq<Value>, kwargs: Atts) returns (r: Result<Atts>)
    ensures r == ParseArgsSpec(t, args, kwargs)
  {
    var all := args;
    var kw := kwargs;
    if "style" in kw {
      all := all + [kw["style"]];
      kw := kw - {"style"};
    }
    assert all == MergedArgs(args, kwargs) && kw == MergedKwargs(kwargs);
    var applied := ApplyAll(t, kw, all);
    if applied.Err? {
      return Err(applied.error);
    }
    kw := applied.value;
    var known := CheckKeys(t, kw);
    if !known {
      return Err(ValueError(UnknownKey));
    }
    var withFg := ResolveColour(kw, "fg", t.fgColors, BadFg);
    if withFg.Err? {
      return Err(withFg.error);
    }
    r := ResolveColour(withFg.value, "bg", t.bgColors, BadBg);
  }

  /** The loop over the keys: fails on the first one that is neither a colour nor a style. */
  method CheckKeys(t: Table, kw: Atts) returns (known: bool)
    ensures known <==> forall k :: k in kw ==> KnownKey(t, k)
  {
    var keys := kw.Keys;
    while keys != {}
      invariant keys <= kw.Keys
      invariant forall k :: k in kw && k !in keys ==> KnownKey(t, k)
      decreases keys
    {
      var k :| k in keys;
      if !(k == "fg" || k == "bg" || k in t.styles) {
        return false;
      }
      keys := keys - {k};
    }
    return true;
  }

  /** The `fg` or `bg` step: a colour name present in the table is replaced by its code,
      then the value must be one of the table's codes. */
  method ResolveColour(kw: Atts, key: string, codes: map<string, int>, reason: Reason)
    returns (r: Result<Atts>)
    ensures r == ResolveKey(kw, key, codes, reason)
  {
    if key !in kw {
      return Ok(kw);
    }
    var v := kw[key];
    var kw' := kw;
    if v.Str? && v.t in codes {
      v := Num(codes[v.t]);
      kw' := kw[key := v];
    } else {
      assert kw[key := v] == kw;
    }
    if !InCodes(v, codes) {
      return Err(ValueError(reason));
    }
    r := Ok(kw');
  }

  /** A two-colour, two-style table used to show particular calls. */
  const Sample: Table := Table(
    map["red" := 31, "blue" := 34],
    map["red" := 41, "blue" := 44],
    map["bold" := 1, "underline" := 4],
    [Esc] + "[0m", [Esc] + "[39m", [Esc] + "[49m")

  /** Applying the names one more at a time. */
  lemma ApplyArgsSnoc(t: Table, kw: Atts, args: seq<Value>, a: Value)
    ensures ApplyArgs(t, kw, args + [a]) ==
      match ApplyArgs(t, kw, args)
      case Err(e) => Err(e)
      case Ok(kw') => ApplyArg(t, kw', a)
  {
    assert (args + [a])[..|args + [a]| - 1] == args;
  }

  /** A key that already holds a code of the table is resolved to itself. */
  lemma ResolvedCode(kw: Atts, key: string, codes: map<string, int>, reason: Reason, name: string)
    requires key in kw && name in codes && kw[key] == Num(codes[name])
    ensures ResolveKey(kw, key, codes, reason) == Ok(kw)
  {
    assert kw[key := Num(codes[name])] == kw;
  }

  /** When the names apply cleanly, every key is known and both colours resolve, parsing
      returns the resolved dictionary. */
  lemma ParseArgsApplied(t: Table, args: seq<Value>, kwargs: Atts, kw: Atts, kw': Atts, kw'': Atts)
    requires ApplyArgs(t, MergedKwargs(kwargs), MergedArgs(args, kwargs)) == Ok(kw)
    requires forall k :: k in kw ==> KnownKey(t, k)
    requires ResolveKey(kw, "fg", t.fgColors, BadFg) == Ok(kw')
    requires ResolveKey(kw', "bg", t.bgColors, BadBg) == Ok(kw'')
    ensures ParseArgsSpec(t, args, kwargs) == Ok(kw'')
  {
  }

  lemma SampleRed()
    ensures ApplyArg(Sample, map[], Str("red")) == Ok(map["fg" := Num(31)])
  {
    assert Lower("red") == "red";
  }

  lemma SampleOnBlue()
    ensures ApplyArg(Sample, map["fg" := Num(31)], Str("on_blue")) == Ok(map["fg" := Num(31), "bg" := Num(44)])
  {
    assert Lower("on_blue") == "on_blue";
    assert Lower("on_blue")[..3] == "on_";
    assert Lower("on_blue"[3..]) == "blue";
  }

  lemma SampleBold()
    ensures ApplyArg(Sample, map["fg" := Num(31), "bg" := Num(44)], Str("bold"))
         == Ok(map["fg" := Num(31), "bg" := Num(44), "bold" := Flag(true)])
  {
    assert Lower("bold") == "bold";
  }

  lemma SampleThreeApplied()
    ensures ApplyArgs(Sample, map[], [Str("red"), Str("on_blue"), Str("bold")])
         == Ok(map["fg" := Num(31), "bg" := Num(44), "bold" := Flag(true)])
  {
    SampleRed();
    SampleOnBlue();
    SampleBold();
    ApplyArgsSnoc(Sample, map[], [], Str("red"));
    ApplyArgsSnoc(Sample, map[], [Str("red")], Str("on_blue"));
    ApplyArgsSnoc(Sample, map[], [Str("red"), Str("on_blue")], Str("bold"));
    assert [] + [Str("red")] == [Str("red")];
    assert [Str("red")] + [Str("on_blue")] == [Str("red"), Str("on_blue")];
    assert [Str("red"), Str("on_blue")] + [Str("bold")] == [Str("red"), Str("on_blue"), Str("bold")];
  }

  /** `fmtstr(s, 'red', 'on_blue', 'bold')`: one name of each kind. */
  lemma SampleThreeNames()
    ensures ParseArgsSpec(Sample, [Str("red"), Str("on_blue"), Str("bold")], map[])
         == Ok(map["fg" := Num(31), "bg" := Num(44), "bold" := Flag(true)])
  {
    var kw := map["fg" := Num(31), "bg" := Num(44), "bold" := Flag(true)];
    var args := [Str("red"), Str("on_blue"), Str("bold")];
    SampleThreeApplied();
    assert MergedArgs(args, map[]) == args && MergedKwargs(map[]) == map[];
    ResolvedCode(kw, "fg", Sample.fgColors, BadFg, "red");
    ResolvedCode(kw, "bg", Sample.bgColors, BadBg, "blue");
    ParseArgsApplied(Sample, args, map[], kw, kw, kw);
  }

  /** `fmtstr(s, 'RED')`: the name passes the lower-case test but the code is looked up with
      the name as given, which is not in the table. */
  lemma SampleUpperCaseColour()
    ensures ParseArgsSpec(Sample, [Str("RED")], map[]) == Err(KeyError)
  {
    assert Lower("RED") == "red";
    assert ApplyArg(Sample, map[], Str("RED")) == Err(KeyError);
    assert [Str("RED")][..0] == [];
    assert ApplyArgs(Sample, map[], [Str("RED")]) == Err(KeyError);
    assert MergedArgs([Str("RED")], map[]) == [Str("RED")] && MergedKwargs(map[]) == map[];
  }

  /** `fmtstr(s, fg='red')`: a colour name given as a keyword becomes its code. */
  lemma SampleColourKeyword()
    ensures ParseArgsSpec(Sample, [], map["fg" := Str("red")]) == Ok(map["fg" := Num(31)])
  {
    var kw, kw' := map["fg" := Str("red")], map["fg" := Num(31)];
    assert MergedKwargs(kw) == kw && MergedArgs([], kw) == [];
    assert kw["fg" := Num(31)] == kw';
    assert ResolveKey(kw, "fg", Sample.fgColors, BadFg) == Ok(kw') by {
      assert Sample.fgColors["red"] == 31;
      assert Resolve(Str("red"), Sample.fgColors, BadFg) == Ok(Num(31));
    }
    ParseArgsApplied(Sample, [], kw, kw, kw', kw');
  }

  /** `fmtstr(s, style='bold')`: the `style` keyword is treated as one more positional name. */
  lemma SampleStyleKeyword()
    ensures ParseArgsSpec(Sample, [], map["style" := Str("bold")]) == Ok(map["bold" := Flag(true)])
  {
    var kw := map["bold" := Flag(true)];
    assert MergedKwargs(map["style" := Str("bold")]) == map[];
    assert MergedArgs([], map["style" := Str("bold")]) == [Str("bold")];
    assert ApplyArgs(Sample, map[], [Str("bold")]) == Ok(kw) by {
      assert Lower("bold") == "bold";
      assert ApplyArg(Sample, map[], Str("bold")) == Ok(kw);
      ApplyArgsSnoc(Sample, map[], [], Str("bold"));
      assert [] + [Str("bold")] == [Str("bold")];
    }
    ParseArgsApplied(Sample, [], map["style" := Str("bold")], kw, kw, kw);
  }

  /** `fmtstr(s, 'red', 'blue')`: a second foreground colour is refused. */
  lemma SampleTwoColours()
    ensures ParseArgsSpec(Sample, [Str("red"), Str("blue")], map[]) == Err(ValueError(FgTwice))
  {
    assert Lower("red") == "red";
    assert Lower("blue") == "blue";
    var args := [Str("red"), Str("blue")];
    var kw1 := map["fg" := Num(31)];
    assert ApplyArg(Sample, map[], Str("red")) == Ok(kw1);
    assert ApplyArg(Sample, kw1, Str("blue")) == Err(ValueError(FgTwice));
    assert args[..1] == [Str("red")] && [Str("red")][..0] == [];
    assert ApplyArgs(Sample, map[], [Str("red")]) == Ok(kw1);
    assert ApplyArgs(Sample, map[], args) == Err(ValueError(FgTwice));
    assert MergedArgs(args, map[]) == args && MergedKwargs(map[]) == map[];
  }
}

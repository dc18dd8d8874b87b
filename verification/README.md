# fmtstr: attributed terminal strings, modelled in Dafny

`fmtstr.py` represents a string with terminal formatting as a `FmtStr`. A `FmtStr` is a
list of runs (`BaseFmtStr`). Each run is a piece of text with an attribute dictionary:

- a foreground colour (`fg`) and a background colour (`bg`), stored as numeric codes;
- the styles `bold`, `underline`, `blink` and `invert`, stored as `True`.

The model covers the following:

- **Rendering.** A run renders by wrapping its text in ANSI escape sequences. A `FmtStr`
  renders as the concatenation of its runs.
- **Length and plain text.** These ignore the attributes.
- **Concatenation (`+`).**
- **Bound normalisation.**
- **Slice reading (`f[a:b]`).** This renders the overlapping part of each run.
- **Splice assignment (`f[a:b] = v`).** This rebuilds the runs around the inserted value.
- **`set_attributes`.** This updates every run in place.
- **`parse_args`.** This turns colour and style names and keyword attributes into one
  validated dictionary.
- **The `fmtstr` builder.**

How the modules are laid out:

- `Base` holds a run, its rendering and the `__str__` loop.
- `Runs` holds the pure list-of-runs functions: plain text, length, filtering, `+`,
  rendering and attribute update.
- `Slicing` holds what reading and splicing produce, with reference definitions (`Take`,
  `Drop`) that the loops are proved against.
- `SliceIndex` holds `normalize_slice`.
- `Fmt` holds the `FmtStr` class. Its `runs` field is changed in place by `SetAttributes`,
  `SetSlice` and `SetItem`.
- `Args` holds `parse_args`.
- `Builder` holds `fmtstr`.

The loops of the source are Dafny `while` loops, each proved equal to a recursive
specification function. Most of those functions recurse from the back of the list, so they
follow the loop step by step. Properties are then proved about the specification
functions: plain-text effect, no empty runs, insertion exactly once, and the error cases.

Python 2 semantics are spelled out:

- `None` compares below every number.
- `True == 1` in a membership test.
- `str.lower` works on ASCII only.
- Slicing clamps its bounds.
- A lambda called with the wrong number of arguments raises `TypeError`.

The colour and style tables and the reset sequences come from a module that is not part of
this model. They are a `Table` parameter. Dictionary iteration order is fixed to
`fg, bg, bold, underline, blink, invert`.

## Model

| member | source | states |
|---|---|---|
| Base.Bracket | fmtstr.py:19-26 | A colour called with `True` raises `TypeError`. A style called with anything but `True` raises `TypeError`. A style that is missing from the style table raises `KeyError`. No other error is possible, and each success ends with the reset sequence for its kind. |
| Base.RenderUpToBrackets | fmtstr.py:19-26 | Each transformation wraps the text, unchanged, between a prefix and a reset suffix. Whether it raises depends on the attribute values alone, never on the text. |
| Base.RenderBrackets | fmtstr.py:37-45 | `str(run)` is the run's own text between escape codes fixed by its attributes, or the error that the attributes cause. |
| Base.RenderWithoutKinds | fmtstr.py:39-41 | Keys that have no transformation are skipped. A run without any of the six kinds renders as its bare text. |
| Base.RenderStaysFailed | fmtstr.py:39-44 | Once a transformation raises, `str(run)` raises that error. |
| Base.RenderRun | fmtstr.py:37-45 | The rewrapping loop yields exactly the specified rendering, including the error cases. |
| Runs.TotalLength | fmtstr.py:88-89 | `len(f)`, the sum of the run lengths, equals the length of the plain text `f.s`. |
| Runs.PlainSegments | fmtstr.py:113-115 | Each run's text sits in `f.s` at the sum of the lengths of the runs before it. |
| Runs.PlainAppend | fmtstr.py:113-115 | The plain text of two run lists joined is the two plain texts joined. |
| Runs.FilterSound | fmtstr.py:62-63 | The constructor leaves no empty run and keeps the plain text. |
| Runs.FilterAppend | fmtstr.py:62-63 | Dropping empty components commutes with concatenation. |
| Runs.FilterNoEmpty | fmtstr.py:62-63 | Run lists that already have no empty run are left as they are. |
| Runs.Concat | fmtstr.py:94-100 | `+` fails exactly when the operand is neither `str` nor `FmtStr`, and then raises `TypeError`. A result has no empty run. |
| Runs.ConcatFormatted | fmtstr.py:95-96 | `f + g` holds f's runs then g's runs. Lengths and plain texts add up. |
| Runs.ConcatText | fmtstr.py:97-98 | `f + "t"` is `f` followed by one run `t` without attributes, or `f` alone when `t` is empty. The plain text is `f.s + t`. |
| Runs.RenderAllAppend | fmtstr.py:85-86 | `str` of joined run lists is the joined renderings. The first error wins. |
| Runs.RenderAllFirstError | fmtstr.py:85-86 | `str(f)` succeeds exactly when every run renders, and otherwise raises the error of the first failing run. |
| Runs.RenderAllWithoutKinds | fmtstr.py:85-86 | A string whose runs carry no renderable attribute renders as its plain text. |
| Runs.SetAll | fmtstr.py:80-83 | Every run keeps its text. Each given key is set to the given value, and every other key keeps its value. |
| Runs.SetAllNothing | fmtstr.py:80-83 | With no attributes, nothing changes. |
| Runs.SetAllIdempotent | fmtstr.py:80-83 | Setting the same attributes twice is the same as setting them once. |
| Runs.SetAllPlain | fmtstr.py:80-83 | Setting attributes keeps the plain text and the absence of empty runs. |
| Slicing.WindowPlainClipped | fmtstr.py:121-126 | The pieces read from `[start, stop)` spell the plain text in that range, clipped to the end of the string. |
| Slicing.WindowPlain | fmtstr.py:117-127 | For `0 <= start <= stop <= len(f)`, the pieces' plain text is exactly `f.s[start:stop]`. |
| Slicing.WindowPastEnd | fmtstr.py:121-126 | A range starting at or after the end selects nothing. |
| Slicing.WindowBeforeStart | fmtstr.py:121-126 | A range that ends at or before 0 selects nothing. |
| Slicing.WindowKeepsAtts | fmtstr.py:121-124 | Each piece carries the attribute dictionary of one of the runs, the run it was cut from. |
| Slicing.WindowWithoutKinds | fmtstr.py:123-124 | Unformatted runs give unformatted pieces. |
| Slicing.ReadUnformatted | fmtstr.py:117-127 | Reading `[start, stop)` of an unformatted string gives exactly `f.s[start:stop]`. |
| Slicing.RenderWindowFailed | fmtstr.py:121-126 | An error raised while rendering a piece ends the read with that error. |
| Slicing.SpliceNoEmpty | fmtstr.py:139-156 | Splicing runs and a value that have no empty run leaves no empty run. |
| Slicing.SpliceOutside | fmtstr.py:139-156 | A range that ends at or before 0, or starts at or after the end, keeps every run and drops the value. |
| Slicing.SpliceAtBoundary | fmtstr.py:140-155 | An empty range at a run boundary, including 0 and the end, keeps every run and drops the value. |
| Slicing.SpliceReference | fmtstr.py:139-156 | For `0 <= start < stop`, the result is the attributed text before `start`, then the value's runs once (if the range reaches the text and the value is not empty), then the attributed text after `stop`. `inserted` records exactly that. |
| Slicing.SpliceStepReference | fmtstr.py:139-156 | Each run the loop visits keeps the result equal to the text before `start`, the value once, then the text after `stop`, of the runs seen so far. |
| Slicing.SplicePlain | fmtstr.py:129-156 | For `0 <= start < stop <= len(f)`, the plain text becomes `f.s[:start] + v.s + f.s[stop:]`, and the length changes accordingly. |
| Slicing.SpliceSuffix | fmtstr.py:139-156 | Runs that all start at or after `stop` are copied to the result unchanged. |
| Slicing.SpliceInsideText | fmtstr.py:139-156 | An empty range strictly inside a run cuts that run around the value's text and keeps every other run. |
| Slicing.SpliceInsideRun | fmtstr.py:139-156 | In a string of any number of runs, an empty range strictly inside a run inserts the value's text at that point: `f.s[:k] + v.s + f.s[k:]`. |
| Slicing.SpliceReversed | fmtstr.py:139-153 | A reversed range `stop <= start` inside one run keeps the text before `start`, then the value, then the text from `stop` on. The text between `stop` and `start` appears twice. |
| Slicing.SampleReversedRange | fmtstr.py:139-153 | `f[5:3] = 'x'` on `'abcdefghij'` gives the plain text `'abcdexdefghij'`. |
| SliceIndex.AsRange | fmtstr.py:103-104 | An integer index `i` becomes the slice `i:i+1` without a step. |
| SliceIndex.NormalizeSliceAsWritten | fmtstr.py:102-111 | As written, an open bound raises `TypeError` before the step is looked at. Otherwise the call fails exactly when a step is given. A bound of -1 or more is kept, and a bound below -1 becomes `len - b`, which is past the end. |
| SliceIndex.AsWrittenFromEndOvershoots | fmtstr.py:105-108 | As written, a bound `b < -1` becomes `len - b`, past the end: on length 10, `-2` becomes 12. |
| SliceIndex.AsWrittenOpenBoundFails | fmtstr.py:105-108 | As written, a slice with an open start or stop raises `TypeError`. |
| SliceIndex.AsWrittenStopOvershoots | fmtstr.py:107-108 | As written, a stop below -1 becomes `len - stop`: on length 10, `f[0:-3]` becomes `0:13`. |
| SliceIndex.AsWrittenMinusOneKept | fmtstr.py:103-108 | As written, -1 is not counted from the end: `f[-1]` becomes `-1:0`. |
| SliceIndex.NormalizeSlice | fmtstr.py:102-111 | Fails exactly when a step is given, with `NotImplementedError`. Each bound is treated on its own: a bound of -1 or more is kept, and a bound below -1 becomes `len + b`. So `f[-1]` becomes `-1:0`. An open start is 0 and an open stop is `len`. A valid integer index selects one character. |
| Fmt.FmtStr.constructor | fmtstr.py:62-63 | The runs are the non-empty components, in order. |
| Fmt.FmtStr.Length | fmtstr.py:88-89 | `len(f)` equals the length of `f.s`. |
| Fmt.FmtStr.S | fmtstr.py:113-115 | `f.s` is as long as the runs together, and holds each run's text at that run's offset. |
| Fmt.FmtStr.ToStr | fmtstr.py:85-86 | `str(f)` succeeds exactly when every run renders, and otherwise raises the error of the first run that fails. A string without formatting renders as `f.s`. |
| Fmt.FmtStr.Add | fmtstr.py:94-100 | Returns a fresh `FmtStr` holding the concatenation, or `TypeError` exactly for an unsupported operand. A `FmtStr` operand without empty runs gives exactly both run lists joined. The plain text is the two plain texts joined. |
| Fmt.FmtStr.SetAttributes | fmtstr.py:80-83 | The nested loops leave the runs equal to `SetAll` of the old runs. They keep `f.s` and the absence of empty runs. |
| Fmt.FmtStr.SetKey | fmtstr.py:82-83 | The inner loop gives every run `atts[k] = v` and keeps its text, which is one more pair of `SetAll`. |
| Fmt.FmtStr.GetSlice | fmtstr.py:119-127 | The loop's output is the rendering of the window's pieces, or the first rendering error. |
| Fmt.FmtStr.ReadRun | fmtstr.py:121-126 | One turn of the reading loop extends the output by the next run's piece exactly when the run overlaps the range, or fails with that piece's error. The offset advances by the run's length. |
| Fmt.FmtStr.GetItem | fmtstr.py:117-127 | Normalises the index, then reads. A step raises `NotImplementedError`. `f[-1]` reads nothing. |
| Fmt.FmtStr.SetSlice | fmtstr.py:135-156 | The rebuilding loop leaves the runs equal to `Splice` of the old runs, and keeps the absence of empty runs. |
| Fmt.FmtStr.SpliceTurn | fmtstr.py:139-156 | One turn of the rebuilding loop: an overlapping run is cut around the range, and any other run is copied. The offset advances by the run's length. |
| Fmt.FmtStr.SpliceRun | fmtstr.py:140-153 | For an overlapping run, the three conditional appends perform one turn of `Splice`. |
| Fmt.FmtStr.SetItem | fmtstr.py:129-156 | A step raises `NotImplementedError` and a value that is neither `str` nor `FmtStr` raises `ValueError`, both before anything changes. Otherwise the runs are spliced. `f[-1] = v` changes nothing. No run is left empty. |
| Fmt.ValueRuns | fmtstr.py:131-132 | A string value becomes runs without empty text that spell the string. A `FmtStr` value contributes its runs. |
| Args.ApplyArg | fmtstr.py:162-174 | One positional argument succeeds only for a colour, `on_` colour or style name, and never removes a key. A second `fg` or `bg` raises. A non-string raises. |
| Args.Resolve | fmtstr.py:178-187 | A colour keyword is accepted exactly when its value, after a table name is replaced by its code, is a code in the table. A table name becomes that name's code, and a code is kept. |
| Args.ResolveKey | fmtstr.py:178-187 | The `fg`/`bg` check keeps the keys and changes only that key. A table name becomes that name's code, a code is kept, and the result is a valid code. |
| Args.ParseArgsSpec | fmtstr.py:158-188 | A successful result has only known keys. `fg` and `bg` are codes from their tables. Every keyword except `style` is kept. |
| Args.ApplyArgsKeys | fmtstr.py:162-174 | The positional loop never removes a key. |
| Args.ApplyArgsFailed | fmtstr.py:162-174 | The first failing positional argument decides the error. |
| Args.ApplyArgsNames | fmtstr.py:162-174 | When the positional loop succeeds, every argument is a colour, `on_` colour or style name. |
| Args.TwoFgNamesFail | fmtstr.py:165-167 | Two foreground names raise. |
| Args.TwoBgNamesFail | fmtstr.py:168-170 | Two background names raise. |
| Args.FgKeywordAndNameFail | fmtstr.py:159-167 | An `fg` keyword together with a foreground name raises. |
| Args.UnknownArgFails | fmtstr.py:162-174 | A non-string argument or an unknown name raises. |
| Args.UnknownKeyFails | fmtstr.py:175-177 | A keyword other than `style`, `fg`, `bg` or a style raises. |
| Args.ApplyArgsKeeps | fmtstr.py:162-174 | Once `fg` or `bg` is set (and no style shares the name), or a key holds `True`, later arguments leave it as it is. |
| Args.FgNameCode | fmtstr.py:165-167 | In a successful parse, a positional foreground name leaves `fg` holding that name's code, for any table. |
| Args.BgNameCode | fmtstr.py:168-170 | In a successful parse, a positional `on_<colour>` leaves `bg` holding that colour's code, for any table. |
| Args.StyleNameSet | fmtstr.py:171-172 | In a successful parse, a positional style name is stored, under the name as given, as `True`. |
| Args.ColourKeywordCode | fmtstr.py:178-187 | In a successful parse, an `fg` or `bg` keyword that names a colour of its table ends as that colour's code. |
| Args.BadColourKeywordFails | fmtstr.py:178-187 | An `fg` or `bg` keyword that is neither a colour name nor a code of its table makes the parse fail. |
| Args.ApplyAll | fmtstr.py:162-174 | The positional loop computes `ApplyArgs`, errors included. |
| Args.CheckKeys | fmtstr.py:175-177 | The key loop succeeds exactly when every key is `fg`, `bg` or a style. |
| Args.ResolveColour | fmtstr.py:178-187 | The `fg` or `bg` block computes `ResolveKey`: a name in the table becomes its code, and a value that is not then a code raises. |
| Args.ParseArgs | fmtstr.py:158-188 | The whole function computes `ParseArgsSpec`. |
| Args.SampleThreeNames | fmtstr.py:158-188 | `'red', 'on_blue', 'bold'` gives `fg`, `bg` and `bold` with their codes. |
| Args.SampleUpperCaseColour | fmtstr.py:165-167 | `'RED'` passes the lower-case test, then the lookup with the original case raises `KeyError`. |
| Args.SampleColourKeyword | fmtstr.py:178-180 | `fg='red'` is replaced by the code of red. |
| Args.SampleStyleKeyword | fmtstr.py:159-161 | `style='bold'` is treated as a positional `'bold'`. |
| Args.SampleTwoColours | fmtstr.py:165-166 | `'red', 'blue'` raises the duplicate-`fg` error. |
| Builder.Build | fmtstr.py:191-199 | Attribute errors come first and leave an existing `FmtStr` untouched. An existing `FmtStr` gets `set_attributes` and is returned itself. A string becomes a fresh one-run `FmtStr`. Anything else raises `ValueError`. |
| Builder.BuiltFromText | fmtstr.py:196-197 | A string built this way has that string as its text. A non-empty one renders as that run rendered. |

## Left out

- `FmtStr.from_str` depends on a parser that is not part of this model.
- `__repr__` of both classes is left out. It only formats.
- Not modelled: the loop that registers a partial of `fmtstr` for every colour and style
  name, `plain`, and the module's demo code.
- `BaseFmtStr.__getitem__` (indexing into the rendered string) is not part of this model.
- The colour and style tables and the reset sequences are abstract `Table` parameters.
  Their contents come from a module that is not part of this model.
- Dictionary iteration order is fixed to `fg, bg, bold, underline, blink, invert` for
  rendering. The order in which `set_attributes` visits its keys does not change its result.
- Runs are values, so object identity is not modelled:
  - `+` and splice assignment take a snapshot of the other operand (`Operand`).
  - `f[a:b] = f` is modelled as if `f` were copied first.
  - The source shares the inserted runs' objects between the value and the target, so a
    later `set_attributes` on one would show in the other. That sharing is not captured.
  - The constructor does not copy its components either.
- Attribute values are limited to booleans, integers and strings. `None`, floats,
  unhashable values and the `long` type are not modelled.
- Subscripts are limited to integers and slices of integers or `None`.
- Exception messages are not modelled, only the exception class and a reason. The
  duplicate-`bg` message reads "fg specified twice".
- `str.lower` is modelled on ASCII only. Byte strings and unicode strings are not
  distinguished in general. The exceptions are `+`, splice assignment and the builder. Each
  of them tests for `str` and so accepts only a byte string (`Runs.Operand.Text`,
  `Builder.Subject.PlainText`). A unicode operand is `Runs.Operand.Other` for `+` and splice
  assignment, and `Builder.Subject.Unsupported` for the builder. `+` raises `TypeError` for
  it, while splice assignment and the builder raise `ValueError`.
- Slicing.SplicePlain: stated for `start < stop <= len(f)` only. Three other lemmas cover
  empty ranges and ranges past the end:
  - `Slicing.SpliceOutside`: a range past either end keeps the runs and drops the value.
  - `Slicing.SpliceAtBoundary`: an empty range at a run boundary does the same.
  - `Slicing.SpliceInsideRun`: an empty range strictly inside a run inserts the value.
- Slicing.SpliceReference: stated for `0 <= start < stop` only. A reversed range is covered
  instead by `Slicing.SpliceReversed`. Inside one run it keeps the text before `start` and the
  text from `stop` on, so the text between them appears twice. A negative start still
  reaches the loop in two ways, and the lemma does not cover it:
  - `-1`, which `SliceIndex.NormalizeSlice` keeps;
  - a bound further from the end than the string is long.
- Fmt.FmtStr.GetItem: normalises with the corrected `SliceIndex.NormalizeSlice`, not with
  the code as written (`SliceIndex.NormalizeSliceAsWritten`). It differs in two ways:
  - an open bound (`f[:3]`, `f[3:]`) raises `TypeError` as written, but here it reads from 0
    or up to the end;
  - a bound below -1 becomes `len - b` as written (`f[-2:10]` on length 10 reads nothing),
    but here it becomes `len + b` (characters 8 to 10).
- Fmt.FmtStr.SetItem: normalises with the corrected `SliceIndex.NormalizeSlice`, with the
  same two differences as `Fmt.FmtStr.GetItem`. As written, an open bound raises `TypeError`
  before the value is looked at. So a bad value with an open bound raises `TypeError` there,
  where the model raises `ValueError`.
- SliceIndex.NormalizeSlice: keeps the source's `-1` boundary. `-1` is left as it is, so
  `f[-1]` selects nothing and `f[-2]` selects `[len-2, -1)`, which is empty.
- A bound of `-2` on a string of length 10 becomes 12 as written, where counting from the
  end gives 8. The finding below records this, and the model uses the corrected arithmetic.

## Findings

| source | as written | input that shows it | evidently intended | confidence | as-written member | corrected member |
|---|---|---|---|---|---|---|
| fmtstr.py:105-108 | A bound below -1 becomes `len(self) - bound` | `f[-2:10]` on a string of length 10 normalises to `12:10` and reads nothing | `len(self) + bound`, counted from the end (8) | high, not executed | SliceIndex.AsWrittenFromEndOvershoots | SliceIndex.NormalizeSlice |
| fmtstr.py:105-108 | An open bound (`None`) passes the `< -1` test in Python 2 and reaches `len(self) - None` | `f[:3]` and `f[3:]` raise `TypeError` | an open start means 0 and an open stop means `len(self)` | medium, not executed | SliceIndex.AsWrittenOpenBoundFails | SliceIndex.NormalizeSlice |

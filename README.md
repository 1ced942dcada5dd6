# vmalert template functions, in Dafny

This project models the data logic of the template helper functions that
vmalert's notifier hands to Go's `text/template` when it renders alert
annotations (`app/vmalert/notifier/template_func.go`), and proves what that
logic promises. It covers the following:

- **The function table.** `InitTemplateFunc` installs a base registry once.
  `funcsWithQuery` derives a fresh per-render table from it: every base entry
  is copied in a loop, and `query` is then bound to the render's datasource
  callback. Go maps are references, so a table is a `FuncMap` object. The
  builder is a method with the copy loop, and it is proved to return a new
  map equal to the base plus the bound `query`, leaving the base unchanged.
- **`args`, `first` and the placeholder `query`** of the base registry.
- **The integer part of `humanizeDuration`.** It covers the sign, the split
  of the whole second count into days, hours, minutes and seconds with Go's
  truncating division, the choice of layout led by the largest non-zero
  unit, and the text. A parser shows that the text of a duration of a minute
  or more gives back its sign and second count.
- **Millisecond tick time.** This covers `TimeFromUnixNano`, `Time.Time()`
  and the conversion `humanizeTimestamp` applies. Go's `/` and `%` truncate
  toward zero; the model writes them out as `GoInt.Quot` and `GoInt.Rem`,
  because tick counts may be negative.
- **`crlfEscape` and `quotesEscape`**, as the literal substitutions they are.

Modules:
- `GoInt`: `int64` and Go's integer division.
- `Decimal`: Go's `%d` for non-negative numbers and a reader for it.
- `TickTime`
- `Duration`
- `Escape`
- `TemplateFunc`
- `Wrappers`: an `Option` datatype.

## Model

| member | source | states |
|---|---|---|
| `GoInt.Quot` | app/vmalert/notifier/template_func.go:204-206 | Go's `/` for a positive divisor: the remainder is smaller than the divisor and has the dividend's sign, and the quotient's magnitude is at most the dividend's |
| `GoInt.Rem` | app/vmalert/notifier/template_func.go:219-221 | Go's `%`: dividend = divisor × quotient + remainder, with a remainder strictly between minus and plus the divisor and signed like the dividend |
| `GoInt.QuotUnique` | app/vmalert/notifier/template_func.go:204-206 | truncating division is determined by its remainder condition: any such quotient equals `Quot` |
| `GoInt.QuotOfMultiple` | app/vmalert/notifier/template_func.go:204-206 | a multiple of the divisor, of either sign, divides exactly with remainder 0 |
| `Decimal.NatToString` | app/vmalert/notifier/template_func.go:54 | `%d` of a non-negative number is a non-empty string of digits with no leading zero |
| `Decimal.DigitsValueOfNatToString` | app/vmalert/notifier/template_func.go:54 | reading the `%d` text of `n` as a decimal number gives back `n` |
| `Decimal.NatToStringInjective` | app/vmalert/notifier/template_func.go:54 | distinct numbers have distinct `%d` texts |
| `Decimal.ReadNatOfNatToString` | app/vmalert/notifier/template_func.go:127 | the `%d` text of `n` followed by a non-digit reads back as `n` and exactly that remainder |
| `TickTime.TimeFromUnixNano` | app/vmalert/notifier/template_func.go:204-206 | the tick count is the nanosecond count divided by 1,000,000 and truncated toward zero: less than one tick is dropped, on the epoch's side |
| `TickTime.UnixArgsOf` | app/vmalert/notifier/template_func.go:219-221 | the seconds and nanoseconds `Time.Time()` passes to `time.Unix` denote exactly `t` milliseconds; the nanoseconds are below 10^9 in magnitude and signed like `t` |
| `TickTime.Unix` | app/vmalert/notifier/template_func.go:220 | `time.Unix(sec, nsec)` denotes the same nanosecond count `sec` × 10^9 + `nsec`, with its nanosecond part brought into [0, 10^9) |
| `TickTime.TimeOf` | app/vmalert/notifier/template_func.go:218-221 | the instant `Time.Time()` returns lies exactly `t` × 10^6 nanoseconds from the epoch, with its nanosecond part in [0, 10^9) |
| `TickTime.TimeRoundTrip` | app/vmalert/notifier/template_func.go:204-221 | converting ticks to wall-clock time and dividing its nanoseconds back by the tick length gives the tick count back, for the `time.Unix` arguments and for the instant |
| `TickTime.TimeFromUnixNanoOfTime` | app/vmalert/notifier/template_func.go:204-221 | `TimeFromUnixNano` of `t` × 10^6 is `t` whenever that nanosecond count fits in an `int64` |
| `TickTime.TimestampInstant` | app/vmalert/notifier/template_func.go:155 | the instant `humanizeTimestamp` renders for `ns` nanoseconds is a whole millisecond, less than a millisecond from `ns`, on the epoch's side, with its nanosecond part in [0, 10^9) |
| `Duration.Decompose` | app/vmalert/notifier/template_func.go:121-124 | the days, hours, minutes and seconds of `n >= 1` whole seconds recompose to `n`, with seconds and minutes below 60 and hours below 24 |
| `Duration.DecomposeUnique` | app/vmalert/notifier/template_func.go:121-124 | any split of `n` with those bounds is the one the code computes |
| `Duration.SplitMagnitude` | app/vmalert/notifier/template_func.go:126-136 | in a well-formed split, days are non-zero iff `n` reaches a day; with no days, hours are non-zero iff `n` reaches an hour; with neither, minutes are non-zero iff `n` reaches a minute |
| `Duration.LayoutOf` | app/vmalert/notifier/template_func.go:121-136 | the form follows the largest non-zero unit: days iff `n >= 86400`, hours iff `3600 <= n < 86400`, minutes iff `60 <= n < 3600`, the `%.4g` seconds form iff `n < 60`; the counts a form shows are the split of `n` (seconds and minutes below 60, hours below 24, the units the form leaves out zero), so they add up to exactly `n` |
| `Duration.SignLeads` | app/vmalert/notifier/template_func.go:116-136 | the text starts with `-` exactly when the duration is negative |
| `Duration.Unsigned` | app/vmalert/notifier/template_func.go:127-136 | the text after the sign ends with the seconds unit `s`, and a counted layout's text starts with a digit |
| `Duration.Render` | app/vmalert/notifier/template_func.go:116-136 | a negative duration's text starts with `-`; a non-negative counted one starts with a digit; every text ends with `s` |
| `Duration.HumanizeDuration` | app/vmalert/notifier/template_func.go:115-136 | for `n >= 60` the text starts with `-` when negative and with a digit otherwise; every text ends with `s` |
| `Duration.HumanizeDurationUnderMinute` | app/vmalert/notifier/template_func.go:135-136 | under a minute the text is the sign, the `%.4g` text of `|v|` and `s` |
| `Duration.HumanizeDurationIsJoin` | app/vmalert/notifier/template_func.go:126-133 | from a minute on the text is the sign followed by the layout's `<count><unit>` groups, largest unit first, joined by single spaces |
| `Duration.UnsignedIsJoin` | app/vmalert/notifier/template_func.go:127-133 | the formats `%dd %dh %dm %ds`, `%dh %dm %ds` and `%dm %ds` are the layout's unit groups joined by single spaces |
| `Duration.ParseJoinGroups` | app/vmalert/notifier/template_func.go:127-133 | space-separated `<count><unit>` groups with non-digit units read back as those groups |
| `Duration.ParseSignedLayout` | app/vmalert/notifier/template_func.go:116-133 | a sign followed by a counted layout's groups reads back as that sign and layout |
| `Duration.ParseHumanizeDuration` | app/vmalert/notifier/template_func.go:115-134 | the text for a duration of a minute or more reads back as its sign and its layout, whose counts add up to `n`: nothing is lost |
| `Escape.ReplaceAll` | app/vmalert/notifier/template_func.go:171-172 | `strings.Replace(s, c, rep, -1)`: the string grows by `|rep| - 1` per occurrence of `c` and contains no character that neither `rep` nor `s` outside `c` supplies |
| `Escape.ReplaceAllAppend` | app/vmalert/notifier/template_func.go:171-172 | replacing in a concatenation replaces in each part, in order |
| `Escape.ReplaceAllAbsent` | app/vmalert/notifier/template_func.go:171-172 | a string without the pattern is unchanged |
| `Escape.ReplaceAllKeeps` | app/vmalert/notifier/template_func.go:171-172 | a character that is neither the pattern nor in the replacement occurs as often afterwards as before |
| `Escape.ReplaceAllCount` | app/vmalert/notifier/template_func.go:171-175 | after the substitution a character occurs as often as it did outside the pattern, plus its count in the replacement once per pattern occurrence; the pattern itself is gone unless the replacement writes it |
| `Escape.CrlfEscape` | app/vmalert/notifier/template_func.go:170-173 | the output of `crlfEscape` has no line feed and no carriage return |
| `Escape.CrlfEscapeIsPerCharacter` | app/vmalert/notifier/template_func.go:170-173 | the two replacement passes equal one simultaneous substitution of LF by `\n` and CR by `\r`, character by character |
| `Escape.CrlfEscapeCounts` | app/vmalert/notifier/template_func.go:170-173 | the output is one character longer per CR and LF, keeps the count of every other character except `\`, `n` and `r`, and equals the input when it has no CR or LF |
| `Escape.CrlfEscapeAppend` | app/vmalert/notifier/template_func.go:170-173 | escaping a concatenation concatenates the escaped parts, so order is kept |
| `Escape.UnescapeCrlfEscape` | app/vmalert/notifier/template_func.go:170-173 | on text without backslashes, unescaping `\n` and `\r` gives the input back |
| `Escape.QuotesEscapeEscapesAll` | app/vmalert/notifier/template_func.go:174-176 | every `"` in the output of `quotesEscape` directly follows a backslash |
| `Escape.QuotesEscape` | app/vmalert/notifier/template_func.go:174-176 | the output of `quotesEscape` is one character longer per `"` and holds only characters of the input, `\` and `"` |
| `Escape.UnescapeQuotesEscape` | app/vmalert/notifier/template_func.go:174-176 | reading `\"` back as `"` gives any input back: `quotesEscape` loses nothing |
| `Escape.QuotesEscapeCounts` | app/vmalert/notifier/template_func.go:174-176 | the output is one character longer per `"`, has as many `"` as the input and one more `\` per `"`, keeps the count of every other character, and equals the input when it has no `"` |
| `Escape.QuotesEscapeAppend` | app/vmalert/notifier/template_func.go:174-176 | escaping a concatenation concatenates the escaped parts |
| `Escape.QuotesEscapeKeepsTrailingBackslash` | app/vmalert/notifier/template_func.go:174-176 | backslashes are not escaped: text ending in `\` still ends in `\` after `quotesEscape` |
| `TemplateFunc.CallQuery` | app/vmalert/notifier/template_func.go:40-42 | only the placeholder and a bound query have the `query` signature |
| `TemplateFunc.BaseFuncs` | app/vmalert/notifier/template_func.go:50-195 | the base registry's `query` returns no metrics and no error for any query text, and no other entry has the `query` signature |
| `TemplateFunc.FuncMap.constructor` | app/vmalert/notifier/template_func.go:36 | a new map holds exactly the given entries |
| `TemplateFunc.FuncMap.Set` | app/vmalert/notifier/template_func.go:38 | a write changes only the written key |
| `TemplateFunc.WithQuery` | app/vmalert/notifier/template_func.go:35-44 | the derived table's keys are the base's keys plus `query`; every other key keeps the base's function; `query` passes its text to the callback and returns both of its results unchanged |
| `TemplateFunc.FuncsWithQuery` | app/vmalert/notifier/template_func.go:35-44 | the returned map is newly allocated, holds exactly `WithQuery(base, query)`, and the base is not modified |
| `TemplateFunc.TwoRenders` | app/vmalert/notifier/template_func.go:35-44 | two tables derived from one base are distinct maps, each `query` runs its own callback, and writing one changes neither the other nor the base |
| `TemplateFunc.ArgKey` | app/vmalert/notifier/template_func.go:54 | the key for position `i` is `arg` followed by decimal digits whose value is `i`, with a leading `0` only for position 0 |
| `TemplateFunc.ArgKeyInjective` | app/vmalert/notifier/template_func.go:54 | distinct argument positions get distinct `arg<i>` keys |
| `TemplateFunc.ArgsMap` | app/vmalert/notifier/template_func.go:51-57 | `args` returns a map with exactly as many entries as arguments; key `arg<i>` holds argument `i`, and there are no other keys |
| `TemplateFunc.FirstOf` | app/vmalert/notifier/template_func.go:183-188 | `first` gives the first metric and no error exactly when the vector is non-empty; otherwise the zero Metric and the error "first() called on vector with no elements" |

## Left out

- `humanize`, `humanize1024` and `humanizePercentage` are left out. They are floating-point scaling followed by Go's `%.4g` formatting.
- The float branches of `humanizeDuration` are left out: NaN, infinity, zero and the sub-second prefix loop.
- `Duration.HumanizeDuration` takes three inputs in place of the float `v`: its sign, `n = int64(|v|)` and the `%.4g` text of `|v|`. The last is used only by the under-a-minute form. How a float becomes those three is not modelled. Because `n >= 1` is required, `|v| >= 2^63` is also left out: there Go's `int64(v)` conversion is implementation-defined (on amd64 it gives the minimum `int64`, and the source then prints negative counts). Its own contract states the sign, digit and unit at the ends of the text; the whole text is stated by `Duration.HumanizeDurationUnderMinute` and `Duration.HumanizeDurationIsJoin`.
- `humanizeTimestamp` is modelled only from the integer nanosecond count `int64(v * 1e9)` onward. The float multiplication and the calendar text `fmt.Sprint` makes of a `time.Time` are not modelled.
- `TickTime.Unix` stands for Go's standard-library `time.Unix`, reduced to its normalisation of the nanoseconds into [0, 10^9). The time zone that `.UTC()` sets is not modelled.
- `reReplaceAll`, `match`, `title`, `toUpper`, `toLower`, `pathEscape`, `queryEscape` and `safeHtml` appear only as table entries. They wrap Go's regexp, strings, net/url and html/template packages, and their behaviour is not modelled. That includes the panic `regexp.MustCompile` raises on a bad pattern.
- `pathPrefix` and `externalURL` appear only as entries that capture the configured URL. Reading a `*url.URL` is not modelled.
- `label` and `value` appear only as table entries. `datasource.Metric` is defined outside this model and appears as an opaque type.
- The global variable `tmplFunc`, and its reassignment by `InitTemplateFunc` while renders may be running, are not modelled. `BaseFuncs` gives the table that call installs. `FuncsWithQuery` takes the base as a `FuncMap`, so its frame property holds for whatever map it is given.
- A `QueryFn` is a Dafny function of the query text. The datasource I/O behind it, and any change of its answers over time, are not modelled.
- Go's random map iteration order is a nondeterministic choice of the next key in `FuncsWithQuery`. The result does not depend on that order.
- `TickTime.TimeRoundTrip` states the round trip over unbounded integers. `TickTime.TimeFromUnixNanoOfTime` states it through `TimeFromUnixNano` only for tick counts whose nanosecond count fits in an `int64`.
- `Escape.UnescapeCrlfEscape` holds only for text without backslashes. A literal `\n` in the input is written unchanged by `crlfEscape`, so the escaped text of a line feed and of a literal `\n` is the same.

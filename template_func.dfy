/**
  The template function table: the base registry `InitTemplateFunc` installs
  once per process, the per-render table `funcsWithQuery` derives from it,
  and the entries of the table that are plain data logic (`args`, `first` and
  the placeholder `query`).

  A function held by a table is named by a constructor of `Fn`; only the
  `query` functions carry behaviour here, a query callback given as a Dafny
  function value.
 */
module TemplateFunc {
  import opened Wrappers
  import opened Decimal

  /** `datasource.Metric`, which the table only passes along. */
  type Metric(==, 0)

  /** `datasource.Metric{}`, the zero Metric. */
  const ZeroMetric: Metric

  /** The configured external URL, which the `pathPrefix` and `externalURL` entries read. */
  type Url(==)

  /** A Go `error`, by its message. */
  type Error = string

  /** Both results of a query: Go's `([]datasource.Metric, error)`. */
  datatype QueryOutcome = QueryOutcome(metrics: seq<Metric>, err: Option<Error>)

  /** `QueryFn`: runs a query text against the datasource. */
  type QueryFn = string -> QueryOutcome

  /** The functions a table holds, one constructor per entry of the base registry, plus a bound query. */
  datatype Fn =
    | ArgsFn | ReReplaceAllFn | SafeHtmlFn | MatchFn | TitleFn | ToUpperFn | ToLowerFn
    | HumanizeFn | Humanize1024Fn | HumanizeDurationFn | HumanizePercentageFn | HumanizeTimestampFn
    | PathPrefixFn(url: Url) | ExternalURLFn(url: Url)
    | PathEscapeFn | QueryEscapeFn | CrlfEscapeFn | QuotesEscapeFn
    | PlaceholderQuery
    | Query(run: QueryFn)
    | FirstFn | LabelFn | ValueFn

  /**
    Calls a table entry of the `query` signature with the query text `q`:
    the placeholder gives no metrics and no error, a bound query hands `q` to
    its callback and returns both of the callback's results. `None` for an
    entry of another signature.
   */
  function CallQuery(f: Fn, q: string): (r: Option<QueryOutcome>)
    ensures r.Some? <==> f.PlaceholderQuery? || f.Query?
  {
    match f
    case PlaceholderQuery => Some(QueryOutcome([], None))
    case Query(run) => Some(run(q))
    case _ => None
  }

  /**
    The base registry `InitTemplateFunc(externalURL)` installs as `tmplFunc`.
    Its `query` is a placeholder, there so that templates validate before any
    datasource is bound: whatever it is asked, it returns no metrics and no
    error; no other entry has the query signature.
   */
  function BaseFuncs(externalURL: Url): (fm: map<string, Fn>)
    ensures "query" in fm && forall q :: CallQuery(fm["query"], q) == Some(QueryOutcome([], None))
    ensures forall name :: name in fm && name != "query" ==> !fm[name].PlaceholderQuery? && !fm[name].Query?
  {
    map[
      "args" := ArgsFn,
      "reReplaceAll" := ReReplaceAllFn,
      "safeHtml" := SafeHtmlFn,
      "match" := MatchFn,
      "title" := TitleFn,
      "toUpper" := ToUpperFn,
      "toLower" := ToLowerFn,
      "humanize" := HumanizeFn,
      "humanize1024" := Humanize1024Fn,
      "humanizeDuration" := HumanizeDurationFn,
      "humanizePercentage" := HumanizePercentageFn,
      "humanizeTimestamp" := HumanizeTimestampFn,
      "pathPrefix" := PathPrefixFn(externalURL),
      "externalURL" := ExternalURLFn(externalURL),
      "pathEscape" := PathEscapeFn,
      "queryEscape" := QueryEscapeFn,
      "crlfEscape" := CrlfEscapeFn,
      "quotesEscape" := QuotesEscapeFn,
      "query" := PlaceholderQuery,
      "first" := FirstFn,
      "label" := LabelFn,
      "value" := ValueFn
    ]
  }

  /**
    A Go `textTpl.FuncMap`. Go maps are references: a write through one holder
    is seen by every other holder, which is why each render needs a map of
    its own.
   */
  class FuncMap {
    var entries: map<string, Fn>

    /** A new map holding `entries`; `make(textTpl.FuncMap)` is `new FuncMap(map[])`. */
    constructor (entries: map<string, Fn>)
      ensures this.entries == entries
    {
      this.entries := entries;
    }

    /** `fm[name] = fn`. */
    method Set(name: string, fn: Fn)
      modifies this
      ensures entries == old(entries)[name := fn]
    {
      entries := entries[name := fn];
    }
  }

  /**
    The table a render works with: every entry of `base`, except that `query`
    is present and runs `query`, handing it the query text and returning both
    of its results unchanged.
   */
  function WithQuery(base: map<string, Fn>, query: QueryFn): (fm: map<string, Fn>)
    ensures fm.Keys == base.Keys + {"query"}
    ensures forall name :: name in base && name != "query" ==> fm[name] == base[name]
    ensures forall q :: CallQuery(fm["query"], q) == Some(query(q))
  {
    base["query" := Query(query)]
  }

  /**
    `funcsWithQuery(query)`: a new map, filled with a copy of every entry of
    the base and then given a `query` that forwards to `query`. The base is
    read and never written.
   */
  method FuncsWithQuery(base: FuncMap, query: QueryFn) returns (fm: FuncMap)
    ensures fresh(fm)
    ensures fm.entries == WithQuery(base.entries, query)
    ensures unchanged(base)
  {
    fm := new FuncMap(map[]);
    var pending := base.entries.Keys;
    while pending != {}
      invariant fresh(fm)
      invariant pending <= base.entries.Keys
      invariant fm.entries.Keys == base.entries.Keys - pending
      invariant forall name :: name in fm.entries ==> fm.entries[name] == base.entries[name]
      decreases pending
    {
      var name :| name in pending;
      fm.Set(name, base.entries[name]);
      pending := pending - {name};
    }
    fm.Set("query", Query(query));
  }

  /**
    Two renders that derive their tables from one base get two distinct maps:
    each table's `query` runs its own render's callback, and a later write to
    one table changes neither the other table nor the base.
   */
  method TwoRenders(base: FuncMap, q1: QueryFn, q2: QueryFn, name: string, fn: Fn)
    returns (t1: FuncMap, t2: FuncMap)
    ensures fresh(t1) && fresh(t2) && t1 != t2
    ensures t1.entries == WithQuery(base.entries, q1)[name := fn]
    ensures t2.entries == WithQuery(base.entries, q2)
    ensures unchanged(base)
  {
    t1 := FuncsWithQuery(base, q1);
    t2 := FuncsWithQuery(base, q2);
    t1.Set(name, fn);
  }

  /** The key under which `args` stores its `i`-th argument: `fmt.Sprintf("arg%d", i)`. */
  function ArgKey(i: nat): (key: string)
    ensures |key| > 3 && key[..3] == "arg"
    ensures AllDigits(key[3..]) && DigitsValue(key[3..]) == i
    ensures key[3] == '0' <==> i == 0
  {
    DigitsValueOfNatToString(i);
    var key := "arg" + NatToString(i);
    assert key[3..] == NatToString(i);
    key
  }

  /** Different positions get different keys, so no argument overwrites another. */
  lemma ArgKeyInjective(i: nat, j: nat)
    ensures ArgKey(i) == ArgKey(j) ==> i == j
  {
    if ArgKey(i) == ArgKey(j) {
      assert NatToString(i) == ArgKey(i)[3..];
      assert NatToString(j) == ArgKey(j)[3..];
      NatToStringInjective(i, j);
    }
  }

  /**
    `args(a_0, ..., a_{n-1})`: a map with exactly `n` entries, the key `arg<i>`
    holding `a_i`.
   */
  method ArgsMap<T>(args: seq<T>) returns (result: map<string, T>)
    ensures |result| == |args|
    ensures forall i :: 0 <= i < |args| ==> ArgKey(i) in result && result[ArgKey(i)] == args[i]
    ensures forall key :: key in result ==> exists i :: 0 <= i < |args| && key == ArgKey(i)
  {
    result := map[];
    for i := 0 to |args|
      invariant |result| == i
      invariant forall j :: 0 <= j < i ==> ArgKey(j) in result && result[ArgKey(j)] == args[j]
      invariant forall key :: key in result ==> exists j :: 0 <= j < i && key == ArgKey(j)
    {
      assert ArgKey(i) !in result by {
        forall j | 0 <= j < i
          ensures ArgKey(j) != ArgKey(i)
        {
          ArgKeyInjective(i, j);
        }
      }
      result := result[ArgKey(i) := args[i]];
    }
  }

  /** The error `first` reports for an empty vector. */
  const FirstEmptyError: Error := "first() called on vector with no elements"

  /** Both results of `first`: Go's `(datasource.Metric, error)`. */
  datatype FirstOutcome = FirstOutcome(metric: Metric, err: Option<Error>)

  /**
    `first(metrics)`: the first metric and no error when there is one;
    otherwise the zero Metric and the empty-vector error.
   */
  function FirstOf(metrics: seq<Metric>): (r: FirstOutcome)
    ensures r.err.None? <==> |metrics| > 0
    ensures r.err.None? ==> r.metric == metrics[0]
    ensures r.err.Some? ==> r.metric == ZeroMetric && r.err.value == FirstEmptyError
  {
    if |metrics| > 0 then FirstOutcome(metrics[0], None)
    else FirstOutcome(ZeroMetric, Some(FirstEmptyError))
  }
}

/**
  `TelemetronClient` (lib/client.rb): a metric client that formats `timer`,
  `counter` and `gauge` calls into protocol lines, samples them, keeps the
  kept lines in a buffer and sends the buffer as one UDP datagram once it
  holds `flush_size` lines.

  The clock (`Time.now.to_i`), the random draw (`rand(1..100)`) and what the
  socket does with a datagram are parameters: `now`, `draw` and `transport`.
  The logger is the sequence `log` of the messages it is given; the socket is
  the ghost sequence `sent` of the datagrams delivered to it.
*/
module Telemetron {
  import opened Wrappers
  import opened Strings
  import opened RubyValues
  import opened MyHash
  import Wire

  // The symbol keys the client reads.
  const HOST: Value := Sym("host")
  const PORT: Value := Sym("port")
  const PREFIX: Value := Sym("prefix")
  const APP: Value := Sym("app")
  const DRYRUN: Value := Sym("dryrun")
  const LOGGER: Value := Sym("logger")
  const TAGS: Value := Sym("tags")
  const SAMPLE_RATE: Value := Sym("sample_rate")
  const FLUSH_SIZE: Value := Sym("flush_size")
  const AGG: Value := Sym("agg")
  const AGG_FREQ: Value := Sym("agg_freq")
  const NAMESPACE: Value := Sym("namespace")

  /** The two ArgumentErrors `initialize` raises. */
  datatype ConfigError = PrefixUndefined | SampleRateOutOfRange


  // ---------------------------------------------------------------------
  // Configuration (lib/client.rb:23-47)
  // ---------------------------------------------------------------------

  /** `default_config`. */
  function DefaultConfig(): seq<Entry>
  {
    [ Entry(HOST, Str("127.0.0.1")),
      Entry(PORT, Int(2013)),
      Entry(TAGS, Hash([])),
      Entry(SAMPLE_RATE, Int(100)),
      Entry(FLUSH_SIZE, Int(10)) ]
  }

  /** `MyHash[config].symbolize_keys` */
  function UserConfig(config: seq<Entry>): seq<Entry>
  {
    Symbolize(Hash(config)).entries
  }

  /** Tags a line can be built from: unique keys, and keys and values that `to_s` renders. */
  predicate RenderableTags(ts: seq<Entry>)
  {
    UniqueKeys(ts) && forall i :: 0 <= i < |ts| ==> Scalar(ts[i].key) && Scalar(ts[i].val)
  }

  predicate ScalarIfPresent(h: seq<Entry>, k: Value)
  {
    HasKey(h, k) ==> Scalar(Lookup(h, k).value)
  }

  /**
    The option types `initialize` documents, for the options the client reads:
    an Integer sample rate and flush size, a Hash of tags, a logger object,
    and host, port, prefix and app that interpolate as text.
  */
  predicate DocumentedConfig(u: seq<Entry>)
  {
    && (HasKey(u, SAMPLE_RATE) ==> Lookup(u, SAMPLE_RATE).value.Int?)
    && (HasKey(u, FLUSH_SIZE) ==> Lookup(u, FLUSH_SIZE).value.Int?)
    && (HasKey(u, TAGS) ==> Lookup(u, TAGS).value.Hash? && RenderableTags(Lookup(u, TAGS).value.entries))
    && (HasKey(u, LOGGER) ==> Lookup(u, LOGGER).value.Nil? || Lookup(u, LOGGER).value.Obj?)
    && ScalarIfPresent(u, PREFIX) && ScalarIfPresent(u, APP)
    && ScalarIfPresent(u, HOST) && ScalarIfPresent(u, PORT)
  }

  /** What a constructed client's `@config` satisfies. */
  predicate ValidConfig(c: seq<Entry>)
  {
    && UniqueKeys(c)
    && HasKey(c, PREFIX) && Scalar(Lookup(c, PREFIX).value)
    && HasKey(c, SAMPLE_RATE) && Lookup(c, SAMPLE_RATE).value.Int?
    && HasKey(c, FLUSH_SIZE) && Lookup(c, FLUSH_SIZE).value.Int?
    && HasKey(c, TAGS) && Lookup(c, TAGS).value.Hash? && RenderableTags(Lookup(c, TAGS).value.entries)
    && HasKey(c, HOST) && Scalar(Lookup(c, HOST).value)
    && HasKey(c, PORT) && Scalar(Lookup(c, PORT).value)
    && ScalarIfPresent(c, APP)
    && (HasKey(c, LOGGER) ==> Lookup(c, LOGGER).value.Nil? || Lookup(c, LOGGER).value.Obj?)
  }

  /** `@config[:sample_rate]`. */
  function SampleRate(c: seq<Entry>): int
    requires ValidConfig(c)
  {
    Lookup(c, SAMPLE_RATE).value.i
  }

  /** `@config[:flush_size]`. */
  function FlushSize(c: seq<Entry>): int
    requires ValidConfig(c)
  {
    Lookup(c, FLUSH_SIZE).value.i
  }

  /**
    The buffer size that triggers a flush: `flush_size`, except that a buffer
    is never shorter than one line once a line has been pushed.
  */
  function Watermark(c: seq<Entry>): (w: int)
    requires ValidConfig(c)
    ensures w >= 1 && w >= FlushSize(c)
    ensures w == 1 || w == FlushSize(c)
  {
    if FlushSize(c) < 1 then 1 else FlushSize(c)
  }

  /** `@config[:tags]`. */
  function GlobalTags(c: seq<Entry>): seq<Entry>
    requires ValidConfig(c)
  {
    Lookup(c, TAGS).value.entries
  }

  /** Dry-run mode: the config has `:dryrun` and its value is truthy. */
  predicate DryRun(c: seq<Entry>)
  {
    HasKey(c, DRYRUN) && Truthy(Lookup(c, DRYRUN).value)
  }

  /** `@logger = @config[:logger]` */
  function LoggerOf(c: seq<Entry>): Value
  {
    if HasKey(c, LOGGER) then Lookup(c, LOGGER).value else Nil
  }

  predicate HasLogger(c: seq<Entry>)
  {
    !LoggerOf(c).Nil?
  }

  /** The message a rescued SocketError is logged with. */
  function ErrorMessage(c: seq<Entry>, error: string): string
    requires ValidConfig(c)
  {
    "Telemetron: " + error + " on " + ToS(Lookup(c, HOST).value) + ":" + ToS(Lookup(c, PORT).value)
  }

  /**
    `initialize` up to `@buffer = []`: symbolize the user's keys, reject a
    missing prefix, reject a sample rate outside 1..100, then lay the user's
    settings over the defaults.
  */
  function BuildConfig(config: seq<Entry>): (r: Result<seq<Entry>, ConfigError>)
    requires DocumentedConfig(UserConfig(config))
    ensures r == Err(PrefixUndefined) <==> !HasKey(UserConfig(config), PREFIX)
    ensures r == Err(SampleRateOutOfRange) <==>
      HasKey(UserConfig(config), PREFIX) && HasKey(UserConfig(config), SAMPLE_RATE)
      && !(1 <= Lookup(UserConfig(config), SAMPLE_RATE).value.i <= 100)
    ensures r.Ok? ==> ValidConfig(r.value) && Symbolized(Hash(r.value))
    ensures r.Ok? ==> 1 <= SampleRate(r.value) <= 100
    ensures r.Ok? ==> |r.value| >= 5 && Keys(r.value)[..5] == Keys(DefaultConfig())
  {
    var u := UserConfig(config);
    if !HasKey(u, PREFIX) then Err(PrefixUndefined)
    else if HasKey(u, SAMPLE_RATE) && !(1 <= Lookup(u, SAMPLE_RATE).value.i <= 100) then
      Err(SampleRateOutOfRange)
    else
      SymbolizeIsSymbolized(Hash(config));
      MergedConfigValid(u);
      Ok(Merge(DefaultConfig(), u))
  }

  lemma DefaultConfigKeys()
    ensures Keys(DefaultConfig()) == [HOST, PORT, TAGS, SAMPLE_RATE, FLUSH_SIZE]
    ensures UniqueKeys(DefaultConfig())
  {
    var d := DefaultConfig();
    var k := [HOST, PORT, TAGS, SAMPLE_RATE, FLUSH_SIZE];
    assert |Keys(d)| == 5;
    forall i | 0 <= i < 5 ensures Keys(d)[i] == k[i] {
    }
  }

  lemma DefaultConfigSymbolized()
    ensures Symbolized(Hash(DefaultConfig()))
  {
    DefaultConfigKeys();
    assert Symbolized(Hash([]));
  }

  lemma DefaultConfigShape()
    ensures Keys(DefaultConfig()) == [HOST, PORT, TAGS, SAMPLE_RATE, FLUSH_SIZE]
    ensures UniqueKeys(DefaultConfig()) && Symbolized(Hash(DefaultConfig()))
    ensures Lookup(DefaultConfig(), HOST) == Some(Str("127.0.0.1"))
    ensures Lookup(DefaultConfig(), PORT) == Some(Int(2013))
    ensures Lookup(DefaultConfig(), TAGS) == Some(Hash([]))
    ensures Lookup(DefaultConfig(), SAMPLE_RATE) == Some(Int(100))
    ensures Lookup(DefaultConfig(), FLUSH_SIZE) == Some(Int(10))
    ensures !HasKey(DefaultConfig(), PREFIX) && !HasKey(DefaultConfig(), APP)
    ensures !HasKey(DefaultConfig(), LOGGER)
  {
    DefaultConfigKeys();
    DefaultConfigSymbolized();
    DefaultLookups(DefaultConfig());
  }

  lemma DefaultLookups(d: seq<Entry>)
    requires d == DefaultConfig()
    requires Keys(d) == [HOST, PORT, TAGS, SAMPLE_RATE, FLUSH_SIZE] && UniqueKeys(d)
    ensures Lookup(d, HOST) == Some(Str("127.0.0.1"))
    ensures Lookup(d, PORT) == Some(Int(2013))
    ensures Lookup(d, TAGS) == Some(Hash([]))
    ensures Lookup(d, SAMPLE_RATE) == Some(Int(100))
    ensures Lookup(d, FLUSH_SIZE) == Some(Int(10))
    ensures !HasKey(d, PREFIX) && !HasKey(d, APP) && !HasKey(d, LOGGER)
  {
    LookupUnique(d, 0);
    LookupUnique(d, 1);
    LookupUnique(d, 2);
    LookupUnique(d, 3);
    LookupUnique(d, 4);
  }

  /** Merging two Hashes in symbolized shape gives one in symbolized shape. */
  lemma MergeSymbolized(a: seq<Entry>, b: seq<Entry>)
    requires Symbolized(Hash(a)) && Symbolized(Hash(b))
    ensures Symbolized(Hash(Merge(a, b)))
  {
    MergeKeepsOrder(a, b);
    MergeEntriesFrom(a, b);
  }

  lemma MergedConfigValid(u: seq<Entry>)
    requires DocumentedConfig(u) && Symbolized(Hash(u))
    requires HasKey(u, PREFIX)
    requires HasKey(u, SAMPLE_RATE) ==> 1 <= Lookup(u, SAMPLE_RATE).value.i <= 100
    ensures ValidConfig(Merge(DefaultConfig(), u)) && Symbolized(Hash(Merge(DefaultConfig(), u)))
    ensures 1 <= SampleRate(Merge(DefaultConfig(), u)) <= 100
    ensures |Merge(DefaultConfig(), u)| >= 5 && Keys(Merge(DefaultConfig(), u))[..5] == Keys(DefaultConfig())
  {
    DefaultConfigShape();
    MergedValid(DefaultConfig(), u);
  }

  /** The defaults' shape, over a Hash `d` that is not a literal to the solver. */
  lemma MergedValid(d: seq<Entry>, u: seq<Entry>)
    requires Keys(d) == [HOST, PORT, TAGS, SAMPLE_RATE, FLUSH_SIZE]
    requires UniqueKeys(d) && Symbolized(Hash(d))
    requires Lookup(d, HOST) == Some(Str("127.0.0.1"))
    requires Lookup(d, PORT) == Some(Int(2013))
    requires Lookup(d, TAGS) == Some(Hash([]))
    requires Lookup(d, SAMPLE_RATE) == Some(Int(100))
    requires Lookup(d, FLUSH_SIZE) == Some(Int(10))
    requires !HasKey(d, PREFIX) && !HasKey(d, APP) && !HasKey(d, LOGGER)
    requires DocumentedConfig(u) && Symbolized(Hash(u))
    requires HasKey(u, PREFIX)
    requires HasKey(u, SAMPLE_RATE) ==> 1 <= Lookup(u, SAMPLE_RATE).value.i <= 100
    ensures ValidConfig(Merge(d, u)) && Symbolized(Hash(Merge(d, u)))
    ensures 1 <= SampleRate(Merge(d, u)) <= 100
    ensures |Merge(d, u)| >= 5 && Keys(Merge(d, u))[..5] == Keys(d)
  {
    var c := Merge(d, u);
    MergeKeepsOrder(d, u);
    MergeSymbolized(d, u);
    assert HasKey(c, PREFIX) && Scalar(Lookup(c, PREFIX).value) by {
      MergeLookup(d, u, PREFIX);
    }
    assert HasKey(c, SAMPLE_RATE) && Lookup(c, SAMPLE_RATE).value.Int?
      && 1 <= Lookup(c, SAMPLE_RATE).value.i <= 100 by {
      MergeLookup(d, u, SAMPLE_RATE);
    }
    assert HasKey(c, FLUSH_SIZE) && Lookup(c, FLUSH_SIZE).value.Int? by {
      MergeLookup(d, u, FLUSH_SIZE);
    }
    assert HasKey(c, TAGS) && Lookup(c, TAGS).value.Hash?
      && RenderableTags(Lookup(c, TAGS).value.entries) by {
      MergeLookup(d, u, TAGS);
      assert RenderableTags([]);
    }
    assert HasKey(c, HOST) && Scalar(Lookup(c, HOST).value) by {
      MergeLookup(d, u, HOST);
    }
    assert HasKey(c, PORT) && Scalar(Lookup(c, PORT).value) by {
      MergeLookup(d, u, PORT);
    }
    assert ScalarIfPresent(c, APP) by {
      MergeLookup(d, u, APP);
    }
    assert HasKey(c, LOGGER) ==> Lookup(c, LOGGER).value.Nil? || Lookup(c, LOGGER).value.Obj? by {
      MergeLookup(d, u, LOGGER);
    }
  }

  /** Every setting is the user's where given, the default's otherwise. */
  lemma ConfigSetting(config: seq<Entry>, k: Value)
    requires DocumentedConfig(UserConfig(config))
    requires BuildConfig(config).Ok?
    ensures Lookup(BuildConfig(config).value, k) ==
      if HasKey(UserConfig(config), k) then Lookup(UserConfig(config), k) else Lookup(DefaultConfig(), k)
  {
    MergeLookup(DefaultConfig(), UserConfig(config), k);
  }

  // ---------------------------------------------------------------------
  // The line `put` builds (lib/client.rb:129-148)
  // ---------------------------------------------------------------------

  /** A key of a renderable Hash, and the value it looks up, render as text. */
  lemma LookupRenderable(h: seq<Entry>, k: Value)
    requires RenderableTags(h) && HasKey(h, k)
    ensures Scalar(k) && Scalar(Lookup(h, k).value)
  {
    var i :| 0 <= i < |Keys(h)| && Keys(h)[i] == k;
    LookupFound(h, k);
    var j :| 0 <= j < |h| && h[j] == Entry(k, Lookup(h, k).value);
  }

  lemma ConcatAssoc(a: string, b: string, c: string, d: string)
    ensures a + b + c + d == a + (b + c + d)
  {
  }

  /** `"#{@config[:prefix]}.#{namespace}.#{metric}"` */
  function MetricName(c: seq<Entry>, namespace: Value, metric: string): string
    requires ValidConfig(c) && Scalar(namespace)
  {
    ToS(Lookup(c, PREFIX).value) + "." + ToS(namespace) + "." + metric
  }

  /** The app tag: `app` mapped to the configured app when the config has one, else nothing. */
  function AppTag(c: seq<Entry>): seq<Entry>
    requires ValidConfig(c)
  {
    if HasKey(c, APP) then [Entry(APP, Lookup(c, APP).value)] else []
  }

  /** The caller's tags, merged with the app tag (if any), then with the global tags. */
  function MergedTags(c: seq<Entry>, tags: seq<Entry>): seq<Entry>
    requires ValidConfig(c)
  {
    Merge(Merge(tags, AppTag(c)), GlobalTags(c))
  }

  /** The global tags win over the app tag, and the app tag over the caller's tags. */
  lemma MergedTagsLookup(c: seq<Entry>, tags: seq<Entry>, k: Value)
    requires ValidConfig(c)
    ensures Lookup(MergedTags(c, tags), k) ==
      if HasKey(GlobalTags(c), k) then Lookup(GlobalTags(c), k)
      else if k == APP && HasKey(c, APP) then Lookup(c, APP)
      else Lookup(tags, k)
  {
    MergeLookup(Merge(tags, AppTag(c)), GlobalTags(c), k);
    MergeLookup(tags, AppTag(c), k);
    if HasKey(c, APP) {
      LookupSnoc([], Entry(APP, Lookup(c, APP).value), k);
    }
  }

  /**
    The key order of the merged tags: the caller's keys in their order, then
    `app` unless the caller had it, then the global keys not already there.
  */
  lemma MergedTagsKeys(c: seq<Entry>, tags: seq<Entry>)
    requires ValidConfig(c) && UniqueKeys(tags)
    ensures Keys(MergedTags(c, tags)) == Dedup(Keys(tags) + Keys(AppTag(c)) + Keys(GlobalTags(c)))
  {
    MergeKeys(tags, AppTag(c));
    MergeKeepsOrder(tags, AppTag(c));
    MergeKeys(Merge(tags, AppTag(c)), GlobalTags(c));
    DedupAppend(Keys(tags) + Keys(AppTag(c)), Keys(GlobalTags(c)));
  }

  /** The merged tags hold every key once, and the caller's keys first, in the caller's order. */
  lemma MergedTagsOrder(c: seq<Entry>, tags: seq<Entry>)
    requires ValidConfig(c) && UniqueKeys(tags)
    ensures UniqueKeys(MergedTags(c, tags))
    ensures |tags| <= |MergedTags(c, tags)| && Keys(MergedTags(c, tags))[..|tags|] == Keys(tags)
  {
    var m1 := Merge(tags, AppTag(c));
    MergeKeepsOrder(tags, AppTag(c));
    MergeKeepsOrder(m1, GlobalTags(c));
    PrefixOfPrefix(Keys(tags), Keys(m1), Keys(MergedTags(c, tags)));
  }

  lemma PrefixOfPrefix<T>(x: seq<T>, y: seq<T>, z: seq<T>)
    requires |x| <= |y| <= |z| && z[..|y|] == y && y[..|x|] == x
    ensures z[..|x|] == x
  {
    assert z[..|x|] == z[..|y|][..|x|];
  }

  /** Merging renderable caller tags with the config's tags gives renderable tags. */
  lemma MergedTagsRenderable(c: seq<Entry>, tags: seq<Entry>)
    requires ValidConfig(c) && RenderableTags(tags)
    ensures RenderableTags(MergedTags(c, tags))
  {
    assert RenderableTags(AppTag(c)) by {
      assert |Keys(AppTag(c))| <= 1;
    }
    MergeRenderable(tags, AppTag(c));
    MergeRenderable(Merge(tags, AppTag(c)), GlobalTags(c));
  }

  lemma MergeRenderable(a: seq<Entry>, b: seq<Entry>)
    requires RenderableTags(a) && RenderableTags(b)
    ensures RenderableTags(Merge(a, b))
  {
    var m := Merge(a, b);
    MergeKeepsOrder(a, b);
    MergeEntriesFrom(a, b);
    forall i | 0 <= i < |m| ensures Scalar(m[i].key) && Scalar(m[i].val) {
      if m[i] in a {
        var j :| 0 <= j < |a| && a[j] == m[i];
      } else {
        var j :| 0 <= j < |b| && b[j] == m[i];
      }
    }
  }

  /**
    The `inject` fold of `put` over the keys `ks`, from the left: starting
    from the name, each key appends a comma, the key's text, `=` and the text
    of its value in `h`.
  */
  function TagFold(name: string, h: seq<Entry>, ks: seq<Value>): string
    requires RenderableTags(h)
    requires forall i :: 0 <= i < |ks| ==> HasKey(h, ks[i])
  {
    if |ks| == 0 then name
    else
      var k := ks[|ks| - 1];
      LookupRenderable(h, k);
      TagFold(name, h, ks[..|ks| - 1]) + "," + ToS(k) + "=" + ToS(Lookup(h, k).value)
  }

  /** Each tag as the text of its key and the text of its value. */
  function TagPairs(h: seq<Entry>): (r: seq<(string, string)>)
    requires RenderableTags(h)
    ensures |r| == |h|
  {
    if |h| == 0 then []
    else
      var last := h[|h| - 1];
      assert RenderableTags(h[..|h| - 1]) by {
        assert forall i :: 0 <= i < |h| - 1 ==> Keys(h[..|h| - 1])[i] == Keys(h)[i];
      }
      TagPairs(h[..|h| - 1]) + [(ToS(last.key), ToS(last.val))]
  }

  /** The texts `Array#join` puts between its separators. */
  function Texts(vs: seq<Value>): (r: seq<string>)
    requires forall i :: 0 <= i < |vs| ==> Scalar(vs[i])
    ensures |r| == |vs|
  {
    seq(|vs|, i requires 0 <= i < |vs| => ToS(vs[i]))
  }

  /** What `put` needs of its arguments to build a line. */
  predicate Renderable(c: seq<Entry>, tags: seq<Entry>, value: Value, aggs: seq<Value>, aggFreq: Value, namespace: Value)
  {
    && ValidConfig(c) && RenderableTags(tags) && Scalar(value) && Scalar(aggFreq) && Scalar(namespace)
    && forall i :: 0 <= i < |aggs| ==> Scalar(aggs[i])
  }

  /**
    The line `put` pushes: the name and tags, the value and timestamp, and,
    for a non-empty aggregation list `aggs`, that list with `agg_freq`
    pushed on the end followed by the sample rate.
  */
  function MetricLine(
    c: seq<Entry>, metric: string, tags: seq<Entry>, value: Value,
    aggs: seq<Value>, aggFreq: Value, sampleRate: int, namespace: Value, now: int): string
    requires Renderable(c, tags, value, aggs, aggFreq, namespace)
  {
    var m := MergedTags(c, tags);
    MergedTagsRenderable(c, tags);
    var line := TagFold(MetricName(c, namespace, metric), m, Keys(m)) + " " + ToS(value) + " " + IntToString(now);
    if |aggs| == 0 then line
    else line + " " + Join(Texts(aggs + [aggFreq]), ",") + " " + IntToString(sampleRate)
  }

  /** The same line, field by field. */
  function LineFields(
    c: seq<Entry>, metric: string, tags: seq<Entry>, value: Value,
    aggs: seq<Value>, aggFreq: Value, sampleRate: int, namespace: Value, now: int): Wire.Line
    requires Renderable(c, tags, value, aggs, aggFreq, namespace)
  {
    MergedTagsRenderable(c, tags);
    Wire.Line(
      MetricName(c, namespace, metric),
      TagPairs(MergedTags(c, tags)),
      ToS(value),
      IntToString(now),
      if |aggs| == 0 then None else Some(Wire.Suffix(Texts(aggs + [aggFreq]), IntToString(sampleRate))))
  }

  /**
    The aggregation segment is there exactly when the aggregation list is
    non-empty, and then lists the aggregations in order with `agg_freq`
    pushed on the end.
  */
  lemma LineSuffix(
    c: seq<Entry>, metric: string, tags: seq<Entry>, value: Value,
    aggs: seq<Value>, aggFreq: Value, sampleRate: int, namespace: Value, now: int)
    requires Renderable(c, tags, value, aggs, aggFreq, namespace)
    ensures var l := LineFields(c, metric, tags, value, aggs, aggFreq, sampleRate, namespace, now);
      && (l.suffix.Some? <==> |aggs| > 0)
      && (l.suffix.Some? ==>
            l.suffix.value.aggregations == Texts(aggs) + [ToS(aggFreq)]
            && l.suffix.value.sampleRate == IntToString(sampleRate))
  {
    assert Texts(aggs + [aggFreq]) == Texts(aggs) + [ToS(aggFreq)];
  }

  /** The fold over the keys of the first `n` tags writes the name and those tags, comma-separated. */
  lemma {:induction false} TagFoldFields(name: string, h: seq<Entry>, n: nat)
    requires RenderableTags(h) && n <= |h|
    ensures RenderableTags(h[..n])
    ensures TagFold(name, h, Keys(h)[..n]) == Join([name] + Wire.TagFields(TagPairs(h[..n])), ",")
  {
    PrefixRenderable(h, n);
    if n > 0 {
      TagFoldFields(name, h, n - 1);
      var field := Wire.TagField((ToS(h[n - 1].key), ToS(h[n - 1].val)));
      TagFoldStep(name, h, n);
      var prev := Wire.TagFields(TagPairs(h[..n - 1]));
      TagPairsStep(h, n);
      assert [name] + Wire.TagFields(TagPairs(h[..n])) == ([name] + prev) + [field];
      JoinSnoc([name] + prev, ",", field);
    }
  }

  lemma PrefixRenderable(h: seq<Entry>, n: nat)
    requires RenderableTags(h) && n <= |h|
    ensures RenderableTags(h[..n])
  {
    assert forall i :: 0 <= i < n ==> Keys(h[..n])[i] == Keys(h)[i];
  }

  /** One more step of the fold appends `,key=value` for the next tag. */
  lemma TagFoldStep(name: string, h: seq<Entry>, n: nat)
    requires RenderableTags(h) && 0 < n <= |h|
    ensures TagFold(name, h, Keys(h)[..n]) ==
      TagFold(name, h, Keys(h)[..n - 1]) + "," + Wire.TagField((ToS(h[n - 1].key), ToS(h[n - 1].val)))
  {
    var ks := Keys(h)[..n];
    assert ks[..n - 1] == Keys(h)[..n - 1] && ks[n - 1] == h[n - 1].key;
    LookupUnique(h, n - 1);
    ConcatAssoc(TagFold(name, h, Keys(h)[..n - 1]) + ",", ToS(h[n - 1].key), "=", ToS(h[n - 1].val));
  }

  lemma TagPairsStep(h: seq<Entry>, n: nat)
    requires RenderableTags(h) && 0 < n <= |h|
    ensures RenderableTags(h[..n]) && RenderableTags(h[..n - 1])
    ensures Wire.TagFields(TagPairs(h[..n])) ==
      Wire.TagFields(TagPairs(h[..n - 1])) + [Wire.TagField((ToS(h[n - 1].key), ToS(h[n - 1].val)))]
  {
    PrefixRenderable(h, n);
    PrefixRenderable(h, n - 1);
    assert h[..n][..n - 1] == h[..n - 1];
    Wire.TagFieldsSnoc(TagPairs(h[..n - 1]), (ToS(h[n - 1].key), ToS(h[n - 1].val)));
  }

  /** The fold over every key writes the name and every tag, comma-separated. */
  lemma TagFoldAll(name: string, h: seq<Entry>)
    requires RenderableTags(h)
    ensures TagFold(name, h, Keys(h)) == Join([name] + Wire.TagFields(TagPairs(h)), ",")
  {
    TagFoldFields(name, h, |h|);
    assert Keys(h)[..|h|] == Keys(h);
    assert h[..|h|] == h;
  }

  /** The line `put` builds is the protocol's formatting of its fields. */
  lemma MetricLineFormat(
    c: seq<Entry>, metric: string, tags: seq<Entry>, value: Value,
    aggs: seq<Value>, aggFreq: Value, sampleRate: int, namespace: Value, now: int)
    requires Renderable(c, tags, value, aggs, aggFreq, namespace)
    ensures MetricLine(c, metric, tags, value, aggs, aggFreq, sampleRate, namespace, now)
      == Wire.Format(LineFields(c, metric, tags, value, aggs, aggFreq, sampleRate, namespace, now))
  {
    MergedTagsRenderable(c, tags);
    TagFoldAll(MetricName(c, namespace, metric), MergedTags(c, tags));
    Wire.FormatUnfold(LineFields(c, metric, tags, value, aggs, aggFreq, sampleRate, namespace, now));
  }

  /**
    A line whose fields hold no separator reads back as: the name
    `prefix.namespace.metric`, one `key=value` per merged tag in merge order,
    the value, the timestamp, and the aggregation segment exactly when the
    aggregation list is non-empty.
  */
  lemma MetricLineParses(
    c: seq<Entry>, metric: string, tags: seq<Entry>, value: Value,
    aggs: seq<Value>, aggFreq: Value, sampleRate: int, namespace: Value, now: int)
    requires Renderable(c, tags, value, aggs, aggFreq, namespace)
    requires Wire.WellFormed(LineFields(c, metric, tags, value, aggs, aggFreq, sampleRate, namespace, now))
    ensures Wire.Parse(MetricLine(c, metric, tags, value, aggs, aggFreq, sampleRate, namespace, now))
      == Some(LineFields(c, metric, tags, value, aggs, aggFreq, sampleRate, namespace, now))
  {
    MetricLineFormat(c, metric, tags, value, aggs, aggFreq, sampleRate, namespace, now);
    Wire.ParseFormat(LineFields(c, metric, tags, value, aggs, aggFreq, sampleRate, namespace, now));
  }
}

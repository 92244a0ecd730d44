/**
  The stateful half of `TelemetronClient` (lib/client.rb): the buffer of
  lines, `flush`, `put_raw`, `put` and the three metric kinds.

  Every method is proved against a pure step function over a `State`
  (buffer, datagrams the socket took, messages the logger got); what the
  source promises about buffering and flushing is proved about those step
  functions.
*/
module Client {
  import opened Wrappers
  import opened Strings
  import opened RubyValues
  import opened Telemetron
  import Wire
  import Sampling

  datatype LogEntry = Debug(message: string) | Error(message: string)

  /** What the socket does with a datagram: takes it, or raises. */
  datatype SendOutcome =
    | Delivered
    | SocketError(text: string)  // a SocketError whose `to_s` is `text`
    | OtherError(text: string)   // any other exception, which `flush` does not rescue

  /**
    What a call returns: `nil`; the byte count `socket.send` returns; the
    `true` of `Logger#debug`; the `false` of the rescue clause; or an
    exception that reaches the caller.
  */
  datatype Reply = ReturnsNil | ReturnsByteCount | ReturnsTrue | ReturnsFalse | Raises(text: string)

  /** The buffer, the datagrams the socket took, and the messages the logger got. */
  datatype State = State(buffer: seq<string>, sent: seq<string>, log: seq<LogEntry>)

  // ---------------------------------------------------------------------
  // Steps (lib/client.rb:137, 158-187)
  // ---------------------------------------------------------------------

  /**
    The body of `flush` once the buffer is not empty and `message` is the
    joined buffer: the message goes to the logger in dry-run mode or to the
    socket, a SocketError is logged and answered with `false`, and the buffer
    is cleared whatever happened.
  */
  function Dispatch(c: seq<Entry>, s: State, message: string, transport: SendOutcome): (r: (State, Reply))
    requires ValidConfig(c)
    ensures r.0.buffer == []
    ensures DryRun(c) ==> r.0.sent == s.sent
    ensures DryRun(c) && HasLogger(c) ==> r.0.log == s.log + [Debug("Flushing metrics: " + message)] && r.1 == ReturnsTrue
    ensures DryRun(c) && !HasLogger(c) ==> r.0.log == s.log && r.1 == ReturnsNil
    ensures !DryRun(c) && transport.Delivered? ==> r.0.sent == s.sent + [message] && r.0.log == s.log && r.1 == ReturnsByteCount
    ensures !DryRun(c) && transport.SocketError? ==> r.0.sent == s.sent && r.1 == ReturnsFalse
    ensures !DryRun(c) && transport.SocketError? ==>
      r.0.log == if HasLogger(c) then s.log + [Error(ErrorMessage(c, transport.text))] else s.log
    ensures !DryRun(c) && transport.OtherError? ==> r.0.sent == s.sent && r.0.log == s.log && r.1 == Raises(transport.text)
  {
    if DryRun(c) then
      if HasLogger(c) then (State([], s.sent, s.log + [Debug("Flushing metrics: " + message)]), ReturnsTrue)
      else (State([], s.sent, s.log), ReturnsNil)
    else
      match transport
      case Delivered => (State([], s.sent + [message], s.log), ReturnsByteCount)
      case SocketError(e) =>
        var log := if HasLogger(c) then s.log + [Error(ErrorMessage(c, e))] else s.log;
        (State([], s.sent, log), ReturnsFalse)
      case OtherError(e) => (State([], s.sent, s.log), Raises(e))
  }

  /** `flush`: nothing on an empty buffer; otherwise the buffer, joined with newlines, is dispatched. */
  function FlushStep(c: seq<Entry>, s: State, transport: SendOutcome): (r: (State, Reply))
    requires ValidConfig(c)
    ensures r.0.buffer == []
    ensures |s.buffer| == 0 ==> r == (s, ReturnsNil)
  {
    if |s.buffer| == 0 then (s, ReturnsNil) else Dispatch(c, s, Wire.Batch(s.buffer), transport)
  }

  /** `put_raw`: push the line, then flush once the buffer holds `flush_size` lines. */
  function PutRawStep(c: seq<Entry>, s: State, line: string, transport: SendOutcome): (r: (State, Reply))
    requires ValidConfig(c)
  {
    var pushed := s.(buffer := s.buffer + [line]);
    if |pushed.buffer| >= FlushSize(c) then FlushStep(c, pushed, transport) else (pushed, ReturnsNil)
  }

  /** The tail of `put`: a kept line goes to `put_raw`, a dropped one changes nothing. */
  function PutStep(c: seq<Entry>, s: State, line: string, sampleRate: int, draw: int, transport: SendOutcome): (State, Reply)
    requires ValidConfig(c)
  {
    if Sampling.Kept(draw, sampleRate) then PutRawStep(c, s, line, transport) else (s, ReturnsNil)
  }

  // ---------------------------------------------------------------------
  // The steps as lib/client.rb writes them (see Findings in README.md)
  // ---------------------------------------------------------------------

  /** `flush` as written: the buffer is joined with the two characters backslash and n. */
  function FlushStepAsWritten(c: seq<Entry>, s: State, transport: SendOutcome): (r: (State, Reply))
    requires ValidConfig(c)
    ensures r.0.buffer == []
    ensures |s.buffer| == 0 ==> r == (s, ReturnsNil)
  {
    if |s.buffer| == 0 then (s, ReturnsNil) else Dispatch(c, s, Wire.BatchAsWritten(s.buffer), transport)
  }

  /** `put_raw` as written. */
  function PutRawStepAsWritten(c: seq<Entry>, s: State, line: string, transport: SendOutcome): (r: (State, Reply))
    requires ValidConfig(c)
  {
    var pushed := s.(buffer := s.buffer + [line]);
    if |pushed.buffer| >= FlushSize(c) then FlushStepAsWritten(c, pushed, transport) else (pushed, ReturnsNil)
  }

  /** The tail of `put` as written: the Integer-division gate, then `put_raw` as written. */
  function PutStepAsWritten(
    c: seq<Entry>, s: State, line: string, sampleRate: int, draw: int, transport: SendOutcome): (State, Reply)
    requires ValidConfig(c)
  {
    if Sampling.KeptAsWritten(draw, sampleRate) then PutRawStepAsWritten(c, s, line, transport) else (s, ReturnsNil)
  }

  /** As written, any rate below 100 drops every metric: the state is untouched and `put` returns nil. */
  lemma PutAsWrittenDropsBelowFullRate(
    c: seq<Entry>, s: State, line: string, rate: int, draw: int, transport: SendOutcome)
    requires ValidConfig(c) && 0 <= rate < 100 && 1 <= draw <= 100
    ensures PutStepAsWritten(c, s, line, rate, draw, transport) == (s, ReturnsNil)
  {
    assert rate / 100 == 0;
  }

  /**
    As written, a delivered flush sends one datagram without a newline: a
    reader that splits on newlines gets a single line back, however many
    lines were buffered.
  */
  lemma FlushAsWrittenSendsOneLine(c: seq<Entry>, s: State)
    requires ValidConfig(c) && !DryRun(c) && |s.buffer| > 0
    requires forall i :: 0 <= i < |s.buffer| ==> '\n' !in s.buffer[i]
    ensures var sent := FlushStepAsWritten(c, s, Delivered).0.sent;
      && |sent| == |s.sent| + 1 && sent[..|s.sent|] == s.sent
      && sent[|s.sent|] == Wire.BatchAsWritten(s.buffer)
      && Split(sent[|s.sent|], '\n') == [sent[|s.sent|]]
      && (|s.buffer| >= 2 ==> Split(sent[|s.sent|], '\n') != s.buffer)
  {
    Wire.BatchAsWrittenIsOneLine(s.buffer);
    var sent := FlushStepAsWritten(c, s, Delivered).0.sent;
    assert sent == s.sent + [Wire.BatchAsWritten(s.buffer)];
    assert sent[..|s.sent|] == s.sent;
  }

  // ---------------------------------------------------------------------
  // What flushing promises
  // ---------------------------------------------------------------------

  /** A second flush finds an empty buffer and does nothing. */
  lemma FlushIdempotent(c: seq<Entry>, s: State, t1: SendOutcome, t2: SendOutcome)
    requires ValidConfig(c)
    ensures FlushStep(c, FlushStep(c, s, t1).0, t2) == (FlushStep(c, s, t1).0, ReturnsNil)
  {
  }

  /**
    In dry-run mode nothing reaches the socket; the logger, if any, gets the
    batch as a debug message: with the newline join, and as written with the
    backslash-n join.
  */
  lemma DryRunLogsInsteadOfSending(c: seq<Entry>, s: State, transport: SendOutcome)
    requires ValidConfig(c) && DryRun(c) && |s.buffer| > 0
    ensures FlushStep(c, s, transport).0.sent == s.sent
    ensures FlushStep(c, s, transport).0.log ==
      if HasLogger(c) then s.log + [Debug("Flushing metrics: " + Wire.Batch(s.buffer))] else s.log
    ensures FlushStep(c, s, transport).1 == if HasLogger(c) then ReturnsTrue else ReturnsNil
    ensures FlushStepAsWritten(c, s, transport).0.sent == s.sent
    ensures FlushStepAsWritten(c, s, transport).0.log ==
      if HasLogger(c) then s.log + [Debug("Flushing metrics: " + Wire.BatchAsWritten(s.buffer))] else s.log
    ensures FlushStepAsWritten(c, s, transport).1 == if HasLogger(c) then ReturnsTrue else ReturnsNil
  {
  }

  /**
    A SocketError is swallowed: the flush answers `false`, sends nothing,
    and the logger, if any, gets "Telemetron: <error> on <host>:<port>".
  */
  lemma SocketErrorReported(c: seq<Entry>, s: State, e: string)
    requires ValidConfig(c) && !DryRun(c) && |s.buffer| > 0
    ensures FlushStep(c, s, SocketError(e)).1 == ReturnsFalse
    ensures FlushStep(c, s, SocketError(e)).0.sent == s.sent
    ensures FlushStep(c, s, SocketError(e)).0.log ==
      if HasLogger(c) then
        s.log + [Error("Telemetron: " + e + " on " + ToS(Lookup(c, HOST).value) + ":" + ToS(Lookup(c, PORT).value))]
      else s.log
    ensures FlushStepAsWritten(c, s, SocketError(e)) == FlushStep(c, s, SocketError(e))
  {
  }

  /** Any other exception reaches the caller, and the buffer is still cleared. */
  lemma OtherErrorPropagates(c: seq<Entry>, s: State, e: string)
    requires ValidConfig(c) && !DryRun(c) && |s.buffer| > 0
    ensures FlushStep(c, s, OtherError(e)) == (State([], s.sent, s.log), Raises(e))
    ensures FlushStepAsWritten(c, s, OtherError(e)) == (State([], s.sent, s.log), Raises(e))
  {
  }

  /**
    A delivered flush sends one datagram from which a reader that splits on
    newlines gets back every buffered line, in order.
  */
  lemma FlushDeliversEveryLine(c: seq<Entry>, s: State)
    requires ValidConfig(c) && !DryRun(c) && |s.buffer| > 0
    requires forall i :: 0 <= i < |s.buffer| ==> '\n' !in s.buffer[i]
    ensures var sent := FlushStep(c, s, Delivered).0.sent;
      |sent| == |s.sent| + 1 && sent[..|s.sent|] == s.sent && Split(sent[|s.sent|], '\n') == s.buffer
  {
    Wire.BatchSplitsIntoLines(s.buffer);
    var sent := FlushStep(c, s, Delivered).0.sent;
    assert sent == s.sent + [Wire.Batch(s.buffer)];
    assert sent[..|s.sent|] == s.sent;
  }

  // ---------------------------------------------------------------------
  // What buffering promises
  // ---------------------------------------------------------------------

  /**
    `put_raw` flushes exactly when the buffer reaches `flush_size` lines;
    otherwise the line is the last one in the buffer and nothing else moves.
  */
  lemma PutRawFlushesAtFlushSize(c: seq<Entry>, s: State, line: string, transport: SendOutcome)
    requires ValidConfig(c)
    ensures |s.buffer| + 1 < Watermark(c) ==>
      PutRawStep(c, s, line, transport) == (State(s.buffer + [line], s.sent, s.log), ReturnsNil)
    ensures |s.buffer| + 1 >= Watermark(c) ==>
      PutRawStep(c, s, line, transport) == FlushStep(c, State(s.buffer + [line], s.sent, s.log), transport)
  {
  }

  /** Between calls the buffer holds fewer lines than the flush watermark. */
  lemma PutRawKeepsBound(c: seq<Entry>, s: State, line: string, transport: SendOutcome)
    requires ValidConfig(c) && |s.buffer| < Watermark(c)
    ensures |PutRawStep(c, s, line, transport).0.buffer| < Watermark(c)
  {
  }

  /** `put_raw` of each line in turn. */
  function PutRawAll(c: seq<Entry>, s: State, lines: seq<string>, transport: SendOutcome): State
    requires ValidConfig(c)
  {
    if |lines| == 0 then s
    else PutRawStep(c, PutRawAll(c, s, lines[..|lines| - 1], transport), lines[|lines| - 1], transport).0
  }

  /** Fewer than `flush_size` lines pushed onto an empty buffer all wait in it, in order. */
  lemma {:induction false} PutRawAllBuffers(c: seq<Entry>, s: State, lines: seq<string>, transport: SendOutcome)
    requires ValidConfig(c) && s.buffer == [] && |lines| < FlushSize(c)
    ensures PutRawAll(c, s, lines, transport) == s.(buffer := lines)
  {
    if |lines| > 0 {
      var init := lines[..|lines| - 1];
      PutRawAllBuffers(c, s, init, transport);
      assert init + [lines[|lines| - 1]] == lines;
    }
  }

  /**
    Pushing `flush_size` lines onto an empty buffer sends them as one
    datagram, once, and leaves the buffer empty.
  */
  lemma FillThenFlush(c: seq<Entry>, s: State, lines: seq<string>)
    requires ValidConfig(c) && !DryRun(c) && s.buffer == []
    requires FlushSize(c) >= 1 && |lines| == FlushSize(c)
    ensures PutRawAll(c, s, lines, Delivered) == State([], s.sent + [Wire.Batch(lines)], s.log)
  {
    var init := lines[..|lines| - 1];
    PutRawAllBuffers(c, s, init, Delivered);
    assert init + [lines[|lines| - 1]] == lines;
  }

  /** `put_raw` as written, of each line in turn. */
  function PutRawAllAsWritten(c: seq<Entry>, s: State, lines: seq<string>, transport: SendOutcome): State
    requires ValidConfig(c)
  {
    if |lines| == 0 then s
    else PutRawStepAsWritten(c, PutRawAllAsWritten(c, s, lines[..|lines| - 1], transport), lines[|lines| - 1], transport).0
  }

  /** As written too, fewer than `flush_size` lines pushed onto an empty buffer all wait in it, in order. */
  lemma {:induction false} PutRawAllAsWrittenBuffers(c: seq<Entry>, s: State, lines: seq<string>, transport: SendOutcome)
    requires ValidConfig(c) && s.buffer == [] && |lines| < FlushSize(c)
    ensures PutRawAllAsWritten(c, s, lines, transport) == s.(buffer := lines)
  {
    if |lines| > 0 {
      var init := lines[..|lines| - 1];
      PutRawAllAsWrittenBuffers(c, s, init, transport);
      assert init + [lines[|lines| - 1]] == lines;
    }
  }

  /**
    As written, pushing `flush_size` lines onto an empty buffer sends them
    once, as the backslash-n join, and leaves the buffer empty.
  */
  lemma FillThenFlushAsWritten(c: seq<Entry>, s: State, lines: seq<string>)
    requires ValidConfig(c) && !DryRun(c) && s.buffer == []
    requires FlushSize(c) >= 1 && |lines| == FlushSize(c)
    ensures PutRawAllAsWritten(c, s, lines, Delivered) == State([], s.sent + [Wire.BatchAsWritten(lines)], s.log)
  {
    var init := lines[..|lines| - 1];
    PutRawAllAsWrittenBuffers(c, s, init, Delivered);
    assert init + [lines[|lines| - 1]] == lines;
  }

  // ---------------------------------------------------------------------
  // What sampling promises
  // ---------------------------------------------------------------------

  /** With sample rate 0 no draw keeps a metric: the buffer stays as it was and `put` answers `nil`. */
  lemma ZeroRateDropsEverything(c: seq<Entry>, s: State, line: string, draw: int, transport: SendOutcome)
    requires ValidConfig(c) && 1 <= draw <= 100
    ensures PutStep(c, s, line, 0, draw, transport) == (s, ReturnsNil)
  {
    Sampling.GatesAgreeAtExtremes(draw);
  }

  /** With sample rate 100 every draw keeps the metric. */
  lemma FullRateKeepsEverything(c: seq<Entry>, s: State, line: string, draw: int, transport: SendOutcome)
    requires ValidConfig(c) && 1 <= draw <= 100
    ensures PutStep(c, s, line, 100, draw, transport) == PutRawStep(c, s, line, transport)
  {
    Sampling.GatesAgreeAtExtremes(draw);
  }

  /**
    With `flush_size` 1, a kept metric is flushed at once, so a SocketError
    makes the metric call itself answer `false` and log the error.
  */
  lemma KeptMetricSocketError(c: seq<Entry>, s: State, line: string, rate: int, draw: int, e: string)
    requires ValidConfig(c) && !DryRun(c) && FlushSize(c) == 1 && s.buffer == []
    requires Sampling.Kept(draw, rate)
    ensures PutStep(c, s, line, rate, draw, SocketError(e)).1 == ReturnsFalse
    ensures PutStep(c, s, line, rate, draw, SocketError(e)).0.buffer == []
    ensures HasLogger(c) ==>
      PutStep(c, s, line, rate, draw, SocketError(e)).0.log == s.log + [Error(ErrorMessage(c, e))]
  {
  }

  /** As written, the same holds only at the full rate, the one rate whose gate keeps a metric. */
  lemma KeptMetricSocketErrorAsWritten(c: seq<Entry>, s: State, line: string, draw: int, e: string)
    requires ValidConfig(c) && !DryRun(c) && FlushSize(c) == 1 && s.buffer == [] && 1 <= draw <= 100
    ensures PutStepAsWritten(c, s, line, 100, draw, SocketError(e)).1 == ReturnsFalse
    ensures PutStepAsWritten(c, s, line, 100, draw, SocketError(e)).0.buffer == []
    ensures HasLogger(c) ==>
      PutStepAsWritten(c, s, line, 100, draw, SocketError(e)).0.log == s.log + [Error(ErrorMessage(c, e))]
  {
    Sampling.GatesAgreeAtExtremes(draw);
  }

  // ---------------------------------------------------------------------
  // Per-call options (lib/client.rb:58-107)
  // ---------------------------------------------------------------------

  datatype Kind = TimerKind | CounterKind | GaugeKind

  function KindName(kind: Kind): string
  {
    match kind
    case TimerKind => "timer"
    case CounterKind => "counter"
    case GaugeKind => "gauge"
  }

  /** The default `:tags` of each kind. */
  function DefaultTags(kind: Kind): seq<Entry>
  {
    if kind == TimerKind then [Entry(Sym("unit"), Str("ms"))] else []
  }

  /** The default `:agg` of each kind. */
  function DefaultAggs(kind: Kind): seq<Value>
  {
    match kind
    case TimerKind => [Str("avg"), Str("p90"), Str("count"), Str("count_ps")]
    case CounterKind => [Str("sum"), Str("count"), Str("count_ps")]
    case GaugeKind => [Str("last")]
  }

  /** The literal option Hash each kind merges the caller's options into; `agg` is its fresh array. */
  function DefaultOptions(kind: Kind, agg: Value): seq<Entry>
  {
    [ Entry(TAGS, Hash(DefaultTags(kind))),
      Entry(AGG, agg),
      Entry(AGG_FREQ, Int(10)),
      Entry(NAMESPACE, Str("application")) ]
  }

  /** The caller's setting for `key` where given, else `default`. */
  function Setting(u: seq<Entry>, key: Value, default: Value): Value
  {
    if HasKey(u, key) then Lookup(u, key).value else default
  }

  /** The option types the metric calls document: a Hash of tags, an Array of aggregations, and a text frequency and namespace. */
  predicate DocumentedOptions(u: seq<Entry>)
  {
    && (HasKey(u, TAGS) ==> Lookup(u, TAGS).value.Hash? && RenderableTags(Lookup(u, TAGS).value.entries))
    && (HasKey(u, AGG) ==> Lookup(u, AGG).value.Arr?)
    && ScalarIfPresent(u, AGG_FREQ) && ScalarIfPresent(u, NAMESPACE)
  }

  /** The aggregation array the caller passed, if any: `put` pushes onto it. */
  function CallerAgg(u: seq<Entry>): set<RubyArray>
  {
    if HasKey(u, AGG) && Lookup(u, AGG).value.Arr? then {Lookup(u, AGG).value.ref} else {}
  }

  /**
    The options a metric call resolves: each key is the caller's value when
    the caller gave one, else the kind's default, key by key.
  */
  lemma ResolvedOptions(kind: Kind, agg: Value, u: seq<Entry>, d: seq<Entry>)
    requires d == DefaultOptions(kind, agg)
    ensures Lookup(Merge(d, u), TAGS) == Some(Setting(u, TAGS, Hash(DefaultTags(kind))))
    ensures Lookup(Merge(d, u), AGG) == Some(Setting(u, AGG, agg))
    ensures Lookup(Merge(d, u), AGG_FREQ) == Some(Setting(u, AGG_FREQ, Int(10)))
    ensures Lookup(Merge(d, u), NAMESPACE) == Some(Setting(u, NAMESPACE, Str("application")))
  {
    assert Keys(d) == [TAGS, AGG, AGG_FREQ, NAMESPACE];
    assert UniqueKeys(d);
    LookupUnique(d, 0);
    LookupUnique(d, 1);
    LookupUnique(d, 2);
    LookupUnique(d, 3);
    MergeLookup(d, u, TAGS);
    MergeLookup(d, u, AGG);
    MergeLookup(d, u, AGG_FREQ);
    MergeLookup(d, u, NAMESPACE);
  }

  /** The value a kind reports: `counter` truncates with `to_i`, the others keep it. */
  function KindValue(kind: Kind, value: Value): (r: Value)
    requires Numeric(value)
    ensures Scalar(r)
    ensures kind == CounterKind ==> r == Int(ToI(value))
    ensures kind != CounterKind ==> r == value
  {
    if kind == CounterKind then Int(ToI(value)) else value
  }

  lemma DefaultTagsRenderable(kind: Kind)
    ensures RenderableTags(DefaultTags(kind))
  {
    assert |Keys(DefaultTags(kind))| <= 1;
  }

  /** The options a caller can pass, laid over a kind's defaults, give a line `put` can build. */
  lemma OptionsRenderable(kind: Kind, u: seq<Entry>)
    requires DocumentedOptions(u)
    ensures Setting(u, TAGS, Hash(DefaultTags(kind))).Hash?
    ensures RenderableTags(Setting(u, TAGS, Hash(DefaultTags(kind))).entries)
    ensures Scalar(Setting(u, AGG_FREQ, Int(10))) && Scalar(Setting(u, NAMESPACE, Str("application")))
  {
    DefaultTagsRenderable(kind);
  }

  /** The line a metric call builds once kept, from the caller's symbolized options `u` and the aggregation list `aggs`. */
  function KindLine(c: seq<Entry>, kind: Kind, name: string, value: Value, u: seq<Entry>, aggs: seq<Value>, now: int): string
    requires ValidConfig(c) && Numeric(value) && DocumentedOptions(u)
    requires forall i :: 0 <= i < |aggs| ==> Scalar(aggs[i])
  {
    OptionsRenderable(kind, u);
    MetricLine(
      c, KindName(kind) + "." + name, Setting(u, TAGS, Hash(DefaultTags(kind))).entries,
      KindValue(kind, value), aggs, Setting(u, AGG_FREQ, Int(10)), SampleRate(c),
      Setting(u, NAMESPACE, Str("application")), now)
  }

  /** The same line, field by field. */
  function KindFields(c: seq<Entry>, kind: Kind, name: string, value: Value, u: seq<Entry>, aggs: seq<Value>, now: int): Wire.Line
    requires ValidConfig(c) && Numeric(value) && DocumentedOptions(u)
    requires forall i :: 0 <= i < |aggs| ==> Scalar(aggs[i])
  {
    OptionsRenderable(kind, u);
    LineFields(
      c, KindName(kind) + "." + name, Setting(u, TAGS, Hash(DefaultTags(kind))).entries,
      KindValue(kind, value), aggs, Setting(u, AGG_FREQ, Int(10)), SampleRate(c),
      Setting(u, NAMESPACE, Str("application")), now)
  }

  /**
    A metric line reads back as its fields: `prefix.namespace.<kind>.<name>`,
    the merged tags, the reported value, the timestamp, and the aggregation
    segment exactly when the aggregation list is non-empty.
  */
  lemma KindLineParses(c: seq<Entry>, kind: Kind, name: string, value: Value, u: seq<Entry>, aggs: seq<Value>, now: int)
    requires ValidConfig(c) && Numeric(value) && DocumentedOptions(u)
    requires forall i :: 0 <= i < |aggs| ==> Scalar(aggs[i])
    requires Wire.WellFormed(KindFields(c, kind, name, value, u, aggs, now))
    ensures Wire.Parse(KindLine(c, kind, name, value, u, aggs, now)) == Some(KindFields(c, kind, name, value, u, aggs, now))
  {
    OptionsRenderable(kind, u);
    MetricLineParses(
      c, KindName(kind) + "." + name, Setting(u, TAGS, Hash(DefaultTags(kind))).entries,
      KindValue(kind, value), aggs, Setting(u, AGG_FREQ, Int(10)), SampleRate(c),
      Setting(u, NAMESPACE, Str("application")), now);
  }

  const UNIT: Value := Sym("unit")

  /**
    Without a `:tags` option a timer line carries `unit=ms` as its first tag,
    with the value `ms` unless a global tag of the same key overrides it.
  */
  lemma TimerUnitTag(c: seq<Entry>, u: seq<Entry>)
    requires ValidConfig(c) && DocumentedOptions(u) && !HasKey(u, TAGS)
    ensures var m := MergedTags(c, Setting(u, TAGS, Hash(DefaultTags(TimerKind))).entries);
      && |m| >= 1 && Keys(m)[0] == UNIT
      && (!HasKey(GlobalTags(c), UNIT) ==> Lookup(m, UNIT) == Some(Str("ms")))
  {
    var tags := [Entry(UNIT, Str("ms"))];
    assert Setting(u, TAGS, Hash(DefaultTags(TimerKind))).entries == tags;
    assert Keys(tags) == [UNIT];
    MergedTagsOrder(c, tags);
    MergedTagsLookup(c, tags, UNIT);
    LookupSnoc([], tags[0], UNIT);
  }

  /**
    A `:tags` option replaces the kind's default tags wholesale: apart from
    `app` and the global tags, a key is in the line's tags, with the caller's
    value, exactly when the caller gave it (so custom timer tags lose
    `unit=ms`).
  */
  lemma CustomTagsReplaceDefaults(c: seq<Entry>, kind: Kind, u: seq<Entry>, k: Value)
    requires ValidConfig(c) && DocumentedOptions(u) && HasKey(u, TAGS)
    requires k != APP && !HasKey(GlobalTags(c), k)
    ensures Lookup(MergedTags(c, Setting(u, TAGS, Hash(DefaultTags(kind))).entries), k)
      == Lookup(Lookup(u, TAGS).value.entries, k)
  {
    MergedTagsLookup(c, Lookup(u, TAGS).value.entries, k);
  }

  /** The list `put` receives as `agg`: the caller's array where given, else the kind's default. */
  function AggList(kind: Kind, u: seq<Entry>): seq<Value>
    reads CallerAgg(u)
  {
    if HasKey(u, AGG) && Lookup(u, AGG).value.Arr? then Lookup(u, AGG).value.ref.items else DefaultAggs(kind)
  }

  /** Every aggregation renders as text (the documented `Array<String>`). */
  predicate AggsRenderable(kind: Kind, u: seq<Entry>)
    reads CallerAgg(u)
  {
    forall i :: 0 <= i < |AggList(kind, u)| ==> Scalar(AggList(kind, u)[i])
  }

  /** A metric call, from the caller's symbolized options `u` and the aggregation list `aggs` it starts from. */
  function EmitStep(
    c: seq<Entry>, s: State, kind: Kind, name: string, value: Value, u: seq<Entry>, aggs: seq<Value>,
    now: int, draw: int, transport: SendOutcome): (State, Reply)
    requires ValidConfig(c) && Numeric(value) && DocumentedOptions(u)
    requires forall i :: 0 <= i < |aggs| ==> Scalar(aggs[i])
  {
    PutStep(c, s, KindLine(c, kind, name, value, u, aggs, now), SampleRate(c), draw, transport)
  }

  // ---------------------------------------------------------------------
  // The client (lib/client.rb:7-187)
  // ---------------------------------------------------------------------

  class TelemetronClient {
    var config: seq<Entry>
    var logger: Value
    var buffer: seq<string>
    ghost var sent: seq<string>
    var log: seq<LogEntry>

    ghost function Snapshot(): State
      reads this
    {
      State(buffer, sent, log)
    }

    /** A constructed client: its config is valid and `@logger` is the config's logger. */
    ghost predicate Configured()
      reads this
    {
      ValidConfig(config) && logger == LoggerOf(config)
    }

    /** Between calls the buffer also holds fewer lines than the flush watermark. */
    ghost predicate Valid()
      reads this
    {
      Configured() && |buffer| < Watermark(config)
    }

    /** The assignments that end `initialize`: `@config`, `@logger` and an empty `@buffer`. */
    constructor(c: seq<Entry>)
      requires ValidConfig(c)
      ensures config == c && logger == LoggerOf(c)
      ensures buffer == [] && sent == [] && log == []
      ensures Valid()
    {
      config := c;
      logger := LoggerOf(c);
      buffer := [];
      sent := [];
      log := [];
    }

    /** `TelemetronClient.new`: either the ArgumentError `initialize` raises, or a client with an empty buffer that has sent and logged nothing. */
    static method New(userConfig: seq<Entry>) returns (r: Result<TelemetronClient, ConfigError>)
      requires DocumentedConfig(UserConfig(userConfig))
      ensures r.Err? <==> BuildConfig(userConfig).Err?
      ensures r.Err? ==> r.error == BuildConfig(userConfig).error
      ensures r.Ok? ==> fresh(r.value) && r.value.Valid()
      ensures r.Ok? ==> r.value.config == BuildConfig(userConfig).value
      ensures r.Ok? ==> r.value.buffer == [] && r.value.sent == [] && r.value.log == []
    {
      var built := BuildConfig(userConfig);
      if built.Err? {
        return Err(built.error);
      }
      var client := new TelemetronClient(built.value);
      return Ok(client);
    }

    method Flush(transport: SendOutcome) returns (reply: Reply)
      requires Configured()
      modifies this
      ensures Valid() && config == old(config) && logger == old(logger)
      ensures (Snapshot(), reply) == FlushStep(config, old(Snapshot()), transport)
    {
      if |buffer| == 0 {
        return ReturnsNil;
      }
      var message := Wire.Batch(buffer);
      if DryRun(config) {
        if logger.Nil? {
          reply := ReturnsNil;
        } else {
          log := log + [Debug("Flushing metrics: " + message)];
          reply := ReturnsTrue;
        }
      } else {
        match transport
        case Delivered =>
          sent := sent + [message];
          reply := ReturnsByteCount;
        case SocketError(e) =>
          if !logger.Nil? {
            log := log + [Error(ErrorMessage(config, e))];
          }
          reply := ReturnsFalse;
        case OtherError(e) =>
          reply := Raises(e);
      }
      buffer := [];
    }

    /** `flush_metrics` */
    method FlushMetrics(transport: SendOutcome) returns (reply: Reply)
      requires Configured()
      modifies this
      ensures Valid() && config == old(config) && logger == old(logger)
      ensures (Snapshot(), reply) == FlushStep(config, old(Snapshot()), transport)
    {
      reply := Flush(transport);
    }

    method PutRaw(line: string, transport: SendOutcome) returns (reply: Reply)
      requires Valid()
      modifies this
      ensures Valid() && config == old(config) && logger == old(logger)
      ensures (Snapshot(), reply) == PutRawStep(config, old(Snapshot()), line, transport)
    {
      buffer := buffer + [line];
      if |buffer| >= FlushSize(config) {
        reply := Flush(transport);
      } else {
        reply := ReturnsNil;
      }
    }

    /**
      `put`: build the line, keep it when the draw passes the sampling gate,
      push `agg_freq` onto a non-empty `agg`, and hand the line to `put_raw`.
    */
    method Put(
      metric: string, tags: seq<Entry>, value: Value, agg: RubyArray, aggFreq: Value,
      sampleRate: int, namespace: Value, now: int, draw: int, transport: SendOutcome)
      returns (reply: Reply)
      requires Valid() && Renderable(config, tags, value, agg.items, aggFreq, namespace)
      modifies this, agg
      ensures Valid() && config == old(config) && logger == old(logger)
      ensures agg.items ==
        if Sampling.Kept(draw, sampleRate) && |old(agg.items)| > 0 then old(agg.items) + [aggFreq] else old(agg.items)
      ensures (Snapshot(), reply) == PutStep(
        config, old(Snapshot()),
        MetricLine(config, metric, tags, value, old(agg.items), aggFreq, sampleRate, namespace, now),
        sampleRate, draw, transport)
    {
      if !Sampling.Kept(draw, sampleRate) {
        return ReturnsNil;
      }
      var merged := MergedTags(config, tags);
      MergedTagsRenderable(config, tags);
      var line := TagFold(MetricName(config, namespace, metric), merged, Keys(merged));
      line := line + " " + ToS(value) + " " + IntToString(now);
      if |agg.items| > 0 {
        agg.Push(aggFreq);
        line := line + " " + Join(Texts(agg.items), ",") + " " + IntToString(sampleRate);
      }
      reply := PutRaw(line, transport);
    }

    /**
      The body `timer`, `counter` and `gauge` share: lay the caller's
      symbolized options `u` over the kind's defaults and `put` the line
      `<kind>.<name>` at the configured sample rate.
    */
    method Emit(kind: Kind, name: string, value: Value, u: seq<Entry>, now: int, draw: int, transport: SendOutcome)
      returns (reply: Reply)
      requires Valid() && Numeric(value) && DocumentedOptions(u) && AggsRenderable(kind, u)
      modifies this, CallerAgg(u)
      ensures Valid() && config == old(config) && logger == old(logger)
      ensures HasKey(u, AGG) ==>
        AggList(kind, u) ==
          if Sampling.Kept(draw, SampleRate(config)) && |old(AggList(kind, u))| > 0
          then old(AggList(kind, u)) + [Setting(u, AGG_FREQ, Int(10))] else old(AggList(kind, u))
      ensures (Snapshot(), reply) ==
        EmitStep(config, old(Snapshot()), kind, name, value, u, old(AggList(kind, u)), now, draw, transport)
    {
      ghost var aggsBefore := AggList(kind, u);
      if HasKey(u, AGG) {
        LookupFound(u, AGG);
      }
      var defaultAgg := new RubyArray(DefaultAggs(kind));
      assert AggList(kind, u) == aggsBefore;
      var opts := Merge(DefaultOptions(kind, Arr(defaultAgg)), u);
      ResolvedOptions(kind, Arr(defaultAgg), u, DefaultOptions(kind, Arr(defaultAgg)));
      OptionsRenderable(kind, u);
      var tags := Lookup(opts, TAGS).value.entries;
      var aggFreq := Lookup(opts, AGG_FREQ).value;
      var namespace := Lookup(opts, NAMESPACE).value;
      var agg := Lookup(opts, AGG).value.ref;
      assert tags == Setting(u, TAGS, Hash(DefaultTags(kind))).entries;
      assert aggFreq == Setting(u, AGG_FREQ, Int(10));
      assert namespace == Setting(u, NAMESPACE, Str("application"));
      if HasKey(u, AGG) {
        assert agg == Lookup(u, AGG).value.ref && agg in CallerAgg(u);
        assert agg.items == aggsBefore;
      } else {
        assert agg == defaultAgg;
        assert agg.items == aggsBefore;
      }
      assert Renderable(config, tags, KindValue(kind, value), agg.items, aggFreq, namespace);
      reply := Put(
        KindName(kind) + "." + name, tags, KindValue(kind, value), agg,
        aggFreq, SampleRate(config), namespace, now, draw, transport);
    }

    /** `timer`: tags `{unit: ms}` and aggregations avg, p90, count, count_ps unless the caller gives others. */
    method Timer(name: string, value: Value, options: seq<Entry>, now: int, draw: int, transport: SendOutcome)
      returns (reply: Reply)
      requires Valid() && Numeric(value)
      requires DocumentedOptions(UserConfig(options)) && AggsRenderable(TimerKind, UserConfig(options))
      modifies this, CallerAgg(UserConfig(options))
      ensures Valid() && config == old(config) && logger == old(logger)
      ensures HasKey(UserConfig(options), AGG) ==>
        AggList(TimerKind, UserConfig(options)) ==
          if Sampling.Kept(draw, SampleRate(config)) && |old(AggList(TimerKind, UserConfig(options)))| > 0
          then old(AggList(TimerKind, UserConfig(options))) + [Setting(UserConfig(options), AGG_FREQ, Int(10))]
          else old(AggList(TimerKind, UserConfig(options)))
      ensures (Snapshot(), reply) == EmitStep(
        config, old(Snapshot()), TimerKind, name, value, UserConfig(options),
        old(AggList(TimerKind, UserConfig(options))), now, draw, transport)
    {
      reply := Emit(TimerKind, name, value, UserConfig(options), now, draw, transport);
    }

    /** `counter`: aggregations sum, count, count_ps unless the caller gives others; the value truncated with `to_i`. */
    method Counter(name: string, value: Value, options: seq<Entry>, now: int, draw: int, transport: SendOutcome)
      returns (reply: Reply)
      requires Valid() && Numeric(value)
      requires DocumentedOptions(UserConfig(options)) && AggsRenderable(CounterKind, UserConfig(options))
      modifies this, CallerAgg(UserConfig(options))
      ensures Valid() && config == old(config) && logger == old(logger)
      ensures HasKey(UserConfig(options), AGG) ==>
        AggList(CounterKind, UserConfig(options)) ==
          if Sampling.Kept(draw, SampleRate(config)) && |old(AggList(CounterKind, UserConfig(options)))| > 0
          then old(AggList(CounterKind, UserConfig(options))) + [Setting(UserConfig(options), AGG_FREQ, Int(10))]
          else old(AggList(CounterKind, UserConfig(options)))
      ensures (Snapshot(), reply) == EmitStep(
        config, old(Snapshot()), CounterKind, name, value, UserConfig(options),
        old(AggList(CounterKind, UserConfig(options))), now, draw, transport)
    {
      reply := Emit(CounterKind, name, value, UserConfig(options), now, draw, transport);
    }

    /** `gauge`: aggregation last unless the caller gives others. */
    method Gauge(name: string, value: Value, options: seq<Entry>, now: int, draw: int, transport: SendOutcome)
      returns (reply: Reply)
      requires Valid() && Numeric(value)
      requires DocumentedOptions(UserConfig(options)) && AggsRenderable(GaugeKind, UserConfig(options))
      modifies this, CallerAgg(UserConfig(options))
      ensures Valid() && config == old(config) && logger == old(logger)
      ensures HasKey(UserConfig(options), AGG) ==>
        AggList(GaugeKind, UserConfig(options)) ==
          if Sampling.Kept(draw, SampleRate(config)) && |old(AggList(GaugeKind, UserConfig(options)))| > 0
          then old(AggList(GaugeKind, UserConfig(options))) + [Setting(UserConfig(options), AGG_FREQ, Int(10))]
          else old(AggList(GaugeKind, UserConfig(options)))
      ensures (Snapshot(), reply) == EmitStep(
        config, old(Snapshot()), GaugeKind, name, value, UserConfig(options),
        old(AggList(GaugeKind, UserConfig(options))), now, draw, transport)
    {
      reply := Emit(GaugeKind, name, value, UserConfig(options), now, draw, transport);
    }
  }
}

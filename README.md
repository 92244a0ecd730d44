# TelemetronClient, modelled in Dafny

This project models the Ruby metric client `TelemetronClient` in `lib/client.rb` and proves its behaviour. The client:

- builds its configuration from the user's options laid over fixed defaults;
- turns `timer`, `counter` and `gauge` calls into Telemetron protocol lines (`prefix.namespace.kind.name,k=v,... value timestamp [aggs,freq sample_rate]`);
- drops lines through a sampling gate;
- buffers kept lines and flushes the buffer to a UDP socket once it reaches `flush_size` lines;
- in dry-run mode logs the batch instead of sending it;
- swallows and logs a `SocketError`;
- always clears the buffer after a flush.

`MyHash#symbolize_keys`, which the client applies to its config and to every option Hash, is modelled too.

Layout, one module per file:

| file | module | what it holds |
|---|---|---|
| `wrappers.dfy` | `Wrappers` | `Option` and `Result` |
| `strings.dfy` | `Strings` | `Join`, `Split`, and integer rendering and parsing, with their round trips |
| `ruby_values.dfy` | `RubyValues` | Ruby values (`Value`); an insertion-ordered Hash as a sequence of entries, with `Hash#[]`, `Hash#merge` and `Hash[pairs]`; a mutable Array (`RubyArray`); `to_s` and `to_i` |
| `my_hash.dfy` | `MyHash` | `symbolize_keys` |
| `wire.dfy` | `Wire` | the protocol line field by field, its formatting and a parser that reads it back; the batch join |
| `sampling.dfy` | `Sampling` | the sampling gate, as written and as intended |
| `telemetron.dfy` | `Telemetron` | config construction, the tag merge, and the line `put` builds |
| `client.dfy` | `Client` | the `TelemetronClient` class (config, logger, buffer, sent datagrams, log) and the pure step functions its methods are proved against |

## How the client is modelled

Each method of the class `Client.TelemetronClient` is proved against a pure step function over `State(buffer, sent, log)`:

- `Flush` against `FlushStep`;
- `PutRaw` against `PutRawStep`;
- `Put` against `PutStep` of `MetricLine`;
- `Timer`, `Counter` and `Gauge` against `EmitStep`.

The lemmas about those functions state what the client promises: flushing, buffering, sampling and line shape.

Things the client gets from outside are passed in as parameters:

- the clock (`Time.now.to_i`) is `now`;
- the random draw (`Random.new.rand(1..100)`) is `draw`;
- what the socket does with a datagram is `transport`: `Delivered`, `SocketError(text)`, or any other exception `OtherError(text)`.

The logger is the `log` sequence of `Debug`/`Error` entries. It is written only when the config holds a non-nil `:logger`.

`put` pushes `agg_freq` onto the aggregation Array it receives. When that Array is the caller's own `:agg` option, the caller sees it grow. `Put` and `Emit` model this mutation on a `RubyArray` object: they name the Array in `modifies`, and their `ensures` give its new contents.

Where the design documents and the code differ, the model follows `lib/client.rb`:

- A caller's `:agg` option replaces the kind's default aggregations wholesale. It is a `Hash#merge`, not an append.
- The namespace comes from the `:namespace` option, defaulting to `"application"`. The config has no namespace.
- The metric name always starts with the configured `:prefix`.
- The sample-rate token is written only when the aggregation list is non-empty.
- `flush_size` may be any Integer. Below 1, every push flushes.
- Dry-run is read from `:dryrun`. The constructor's comment documents it as `:dry`.
- Tag precedence: global tags win over the `app` tag, and the `app` tag wins over the caller's tags (lib/client.rb:133-135). The design documents put `app` last, so that it wins, and also say the caller's tags win over the global tags. `Telemetron.MergedTagsLookup` states the code's order.
- A `:tags` option replaces a kind's default tags (for a timer, `unit=ms`) instead of being merged with them (lib/client.rb:59-64). `Client.CustomTagsReplaceDefaults` states this.

## Model

| member | source | states |
|---|---|---|
| MyHash.SymKey | lib/client.rb:210 | A String key becomes the Symbol of the same name; every other key is left as it is; no result is a String |
| MyHash.Symbolize | lib/client.rb:205-216 | A value that is not a Hash comes back unchanged, and a Hash comes back as a Hash |
| MyHash.SymbolizeHash | lib/client.rb:207-212 | The result's keys are the converted keys, each once, in order of first occurrence; the value under a key is that of the last entry converting to it |
| MyHash.SymbolizeIsSymbolized | lib/client.rb:205-216 | The result has no String key at any depth of nested Hashes, and no duplicate key |
| MyHash.SymbolizeFixesSymbolized | lib/client.rb:205-216 | A value with no String key at any depth and no duplicate key is returned unchanged |
| MyHash.SymbolizeIdempotent | lib/client.rb:205-216 | Symbolizing twice gives the same as symbolizing once |
| RubyValues.MergeLookup | lib/client.rb:42 | After `a.merge(b)`, a key looks up `b`'s value when `b` has it, else `a`'s |
| RubyValues.MergeKeys | lib/client.rb:42 | The keys of `a.merge(b)` are `a`'s keys followed by `b`'s new keys: an existing key keeps its position |
| RubyValues.MergeKeepsOrder | lib/client.rb:134 | `a.merge(b)` keeps keys unique, keeps `a`'s keys as a prefix in order, and holds every key of both |
| RubyValues.FromPairsUnique | lib/client.rb:208 | `Hash[pairs]` of pairs with distinct keys is those pairs in order |
| RubyValues.RubyArray.Push | lib/client.rb:145 | `Array#push` appends one element in place |
| RubyValues.Lookup | lib/client.rb:43 | `hash[k]` finds a value exactly when the key is present (the last entry with that key wins) |
| RubyValues.Store | lib/client.rb:42 | `hash[k] = v` keeps the key order of an existing key and appends a new key; every entry is an old one or `k => v` |
| RubyValues.StoreLookup | lib/client.rb:42 | After `hash[k] = v`, `k` looks up `v` and every other key looks up what it did before |
| RubyValues.Merge | lib/client.rb:42 | `Hash#merge` stores `b`'s entries into `a` one by one; its meaning is given by MergeLookup and MergeKeys |
| RubyValues.FromPairs | lib/client.rb:208 | `Hash[pairs]` stores the pairs into an empty Hash; its meaning is given by FromPairsUnique and MyHash.SymbolizeHash |
| RubyValues.ToI | lib/client.rb:86 | `to_i` keeps an Integer and truncates a fraction toward zero (bounds on both signs) |
| Strings.IntToStringRoundTrip | lib/client.rb:142 | An Integer's decimal text reads back as the same Integer |
| Telemetron.UserConfig | lib/client.rb:24 | The user's options after `symbolize_keys`; BuildConfig and MyHash.SymbolizeIsSymbolized state what that gives |
| Telemetron.DefaultConfig | lib/client.rb:34-40 | The default Hash; its keys, order and values are stated by DefaultConfigShape |
| Telemetron.BuildConfig | lib/client.rb:23-44 | Raises "prefix undefined" exactly when the symbolized options lack `:prefix`; otherwise raises "sample rate out of range" exactly when `:sample_rate` is given outside 1..100; otherwise the config is valid, symbolized, starts with the five default keys, and has a sample rate in 1..100 |
| Telemetron.DefaultConfigShape | lib/client.rb:34-40 | The defaults are host "127.0.0.1", port 2013, tags {}, sample rate 100 and flush size 10, in that key order, with no prefix, app or logger |
| Telemetron.ConfigSetting | lib/client.rb:42 | Every setting of the built config is the user's where given and the default otherwise |
| Telemetron.MergedConfigValid | lib/client.rb:42 | Documented user options that pass both checks give a valid, symbolized config whose sample rate is in 1..100 |
| Telemetron.Watermark | lib/client.rb:160 | The buffer size that triggers a flush is `flush_size`, or 1 when `flush_size` is below 1 |
| Telemetron.ErrorMessage | lib/client.rb:181 | The logged text "Telemetron: <error> on <host>:<port>"; SocketErrorReported states it is what a SocketError logs |
| Telemetron.MetricName | lib/client.rb:130 | `prefix.namespace.metric`; KindLineParses states it is the name a metric line reads back with |
| Telemetron.MergedTags | lib/client.rb:133-135 | The caller's tags merged with the app tag, then with the global tags; its meaning is given by MergedTagsLookup, MergedTagsKeys and MergedTagsOrder |
| Telemetron.TagFold | lib/client.rb:138-140 | The `inject` fold over the merged keys; TagFoldAll states what it writes |
| Telemetron.MergedTagsLookup | lib/client.rb:133-135 | Among the merged tags, the global tags win over the app tag, and the app tag wins over the caller's tags |
| Telemetron.MergedTagsKeys | lib/client.rb:133-135 | The merged keys are the caller's keys, then `app`, then the global keys, each once, in order of first occurrence |
| Telemetron.MergedTagsOrder | lib/client.rb:133-135 | The merged tags have unique keys, with the caller's keys first in the caller's order |
| Telemetron.MergedTagsRenderable | lib/client.rb:133-135 | Merging renderable caller tags with the config's tags gives renderable tags |
| Telemetron.TagFoldAll | lib/client.rb:138-140 | The `inject` fold writes the name, then `,key=value` for every merged tag in key order |
| Telemetron.LineSuffix | lib/client.rb:144-148 | The aggregation segment is present exactly when the aggregation list is non-empty; it then holds the aggregations with `agg_freq` last, followed by the sample rate |
| Telemetron.MetricLine | lib/client.rb:130-148 | The line `put` builds; MetricLineFormat and MetricLineParses state its fields |
| Telemetron.MetricLineFormat | lib/client.rb:129-148 | The line `put` builds is the protocol formatting of its fields: name `prefix.namespace.metric`, merged tags, value, timestamp, optional aggregation segment |
| Telemetron.MetricLineParses | lib/client.rb:129-148 | A line whose fields hold no separator parses back into exactly those fields |
| Wire.ParseFormat | lib/client.rb:138-148 | Formatting a well-formed line and parsing it gives the line back |
| Wire.FormatParse | lib/client.rb:138-148 | Any text the parser accepts is re-formatted to itself |
| Wire.BatchSplitsIntoLines | lib/client.rb:170 | A newline-joined batch splits back into its lines, in order |
| Wire.BatchAsWrittenIsOneLine | lib/client.rb:170 | A batch joined with the backslash-n literal contains no newline, so it reads as one line whatever its size |
| Wire.BatchAsWrittenMergesTwoLines | lib/client.rb:170 | Two lines joined as written read back as one line; joined with a newline, as two |
| Wire.BatchAsWritten | lib/client.rb:170 | The batch as written, joined with backslash and n; BatchAsWrittenIsOneLine states what a reader gets |
| Wire.Batch | lib/client.rb:170 | The batch as intended, joined with newlines; BatchSplitsIntoLines states what a reader gets |
| Sampling.KeptAsWritten | lib/client.rb:131-137 | The gate as written, `draw <= (rate / 100) * 100`; KeepingDrawsAsWrittenCount states which draws it keeps |
| Sampling.Kept | lib/client.rb:131-137 | The gate as intended, `draw <= rate`; KeepingDrawsCount states which draws it keeps |
| Sampling.KeepingDrawsCount | lib/client.rb:131-137 | With the intended gate, exactly `rate` of the 100 draws keep a metric |
| Sampling.KeepingDrawsAsWrittenCount | lib/client.rb:131-137 | With the gate as written, every draw keeps at rate 100 and none keeps at any rate below 100 |
| Sampling.HalfRateDropsAsWritten | lib/client.rb:131-137 | At rate 50, draw 1 is dropped as written but kept by the intended gate |
| Sampling.GatesAgreeAtExtremes | spec/telemetry_spec.rb:105-108 | Both gates drop every draw at rate 0 and keep every draw at rate 100 |
| Client.Dispatch | lib/client.rb:174-185 | For any message: the buffer is empty afterwards whatever the transport did (the `ensure`); in dry-run nothing is sent, and a logger gets "Flushing metrics: " plus the message and the call returns true, while without a logger nothing is logged and it returns nil; otherwise a delivered message is appended to what was sent; a SocketError sends nothing, returns false and logs the error message when there is a logger; any other exception sends and logs nothing and reaches the caller |
| Client.FlushStep | lib/client.rb:168-187 | The buffer is empty after every flush; a flush of an empty buffer changes nothing and returns nil (joins with a newline, the corrected separator) |
| Client.FlushStepAsWritten | lib/client.rb:168-187 | `flush` as written, joining with backslash and n: the buffer is empty afterwards; an empty buffer is a no-op returning nil |
| Client.PutRawStep | lib/client.rb:158-163 | `put_raw` with the corrected flush; PutRawFlushesAtFlushSize and PutRawKeepsBound state its behaviour |
| Client.PutRawStepAsWritten | lib/client.rb:158-163 | `put_raw` with `flush` as written |
| Client.PutStep | lib/client.rb:137-150 | The tail of `put` with the corrected gate; ZeroRateDropsEverything and FullRateKeepsEverything state its behaviour |
| Client.PutStepAsWritten | lib/client.rb:137-150 | The tail of `put` as written: the Integer-division gate, then `put_raw` as written |
| Client.PutAsWrittenDropsBelowFullRate | lib/client.rb:131-150 | As written, at every rate from 0 to 99 and every draw in 1..100, `put` leaves the state unchanged and returns nil |
| Client.FlushAsWrittenSendsOneLine | lib/client.rb:168-178 | As written, a delivered flush appends one datagram, the backslash-n join of the buffer, which splits on newlines into one line; with two or more buffered lines that is not the buffer |
| Client.FlushIdempotent | lib/client.rb:169 | A second flush finds an empty buffer and does nothing |
| Client.DryRunLogsInsteadOfSending | spec/telemetry_spec.rb:121-127 | In dry-run nothing is sent; a logger gets the debug message "Flushing metrics: " plus the batch and the call returns true; without a logger it returns nil; this holds with the newline join and, as written, with the backslash-n join |
| Client.SocketErrorReported | spec/telemetry_spec.rb:204-211 | A SocketError is swallowed: the flush returns false, sends nothing, and a logger gets "Telemetron: <error> on <host>:<port>"; the as-written flush behaves the same |
| Client.OtherErrorPropagates | lib/client.rb:174-185 | Any other exception reaches the caller, nothing is sent or logged, and the buffer is still cleared; with either join |
| Client.FlushDeliversEveryLine | lib/client.rb:170-178 | With the corrected newline join, a delivered flush appends one datagram, which splits on newlines into every buffered line in order (as written it does not: see FlushAsWrittenSendsOneLine) |
| Client.PutRawFlushesAtFlushSize | lib/client.rb:158-163 | `put_raw` appends the line and flushes exactly when the buffer reaches the watermark; otherwise nothing else changes |
| Client.PutRawKeepsBound | lib/client.rb:158-163 | Between calls the buffer holds fewer lines than the watermark |
| Client.PutRawAllBuffers | lib/client.rb:158-163 | Fewer than `flush_size` lines pushed onto an empty buffer all wait in it, in order, with nothing sent |
| Client.FillThenFlush | lib/client.rb:158-163 | With the corrected newline join, pushing exactly `flush_size` lines onto an empty buffer sends them as one newline-joined batch and empties the buffer |
| Client.PutRawAllAsWrittenBuffers | lib/client.rb:158-163 | As written, fewer than `flush_size` lines pushed onto an empty buffer all wait in it, in order, with nothing sent |
| Client.FillThenFlushAsWritten | lib/client.rb:158-170 | As written, pushing exactly `flush_size` lines onto an empty buffer sends them once as the backslash-n join and empties the buffer |
| Client.ZeroRateDropsEverything | spec/telemetry_spec.rb:105-108 | At sample rate 0 a metric call leaves the state unchanged and returns nil |
| Client.FullRateKeepsEverything | lib/client.rb:137-150 | At sample rate 100 every line goes to `put_raw` |
| Client.KeptMetricSocketError | spec/telemetry_spec.rb:204-211 | With the corrected gate and flush size 1, a kept metric whose send raises SocketError returns false, leaves the buffer empty and logs the error |
| Client.KeptMetricSocketErrorAsWritten | lib/client.rb:131-185 | As written the same holds at sample rate 100, for every draw |
| Client.ResolvedOptions | lib/client.rb:59-64 | Each of `:tags`, `:agg`, `:agg_freq` and `:namespace` is the caller's value where given, else the kind's default |
| Client.KindValue | lib/client.rb:86 | `counter` reports `value.to_i`; `timer` and `gauge` report the value unchanged |
| Client.KindLineParses | lib/client.rb:66 | A metric line reads back as its fields: name `prefix.namespace.<kind>.<name>`, the merged tags, the value, the timestamp and the aggregation segment |
| Client.KindLine | lib/client.rb:58-107 | The line a metric call builds from its resolved options; KindLineParses states its fields |
| Client.TimerUnitTag | lib/client.rb:58-66 | Without a `:tags` option a timer line's first tag is `unit`, with value `ms` unless a global tag overrides it |
| Client.CustomTagsReplaceDefaults | lib/client.rb:59-64 | A `:tags` option replaces the default tags: apart from `app` and the global tags, the line's tags are exactly the caller's |
| Client.EmitStep | lib/client.rb:58-107 | A metric call as a step: `put` of the kind's line at the config's sample rate; the metric methods are proved equal to it |
| Client.TelemetronClient.constructor | lib/client.rb:42-44 | The client holds the built config and its logger, with an empty buffer, nothing sent and nothing logged |
| Client.TelemetronClient.New | lib/client.rb:23-47 | Construction fails exactly when building the config fails, with the same error; otherwise it gives a fresh valid client with the built config, an empty buffer, nothing sent and nothing logged |
| Client.TelemetronClient.Flush | lib/client.rb:168-187 | The new state and the return value are those of `FlushStep`; the config and logger are unchanged and the buffer invariant holds |
| Client.TelemetronClient.FlushMetrics | lib/client.rb:110-112 | `flush_metrics` is `flush` |
| Client.TelemetronClient.PutRaw | lib/client.rb:158-163 | The new state and return value are those of `PutRawStep`, and the buffer stays below the watermark |
| Client.TelemetronClient.Put | lib/client.rb:129-152 | The new state and return value are those of `PutStep` on the `MetricLine` of the arguments; the aggregation Array gains `agg_freq` exactly when the line is kept and the Array was non-empty |
| Client.TelemetronClient.Emit | lib/client.rb:59-66 | A metric call resolves its options over the kind's defaults and behaves as `put` of the kind's line; the caller's `:agg` Array is mutated as `put` mutates it |
| Client.TelemetronClient.Timer | lib/client.rb:58-67 | `timer` is a metric call of kind timer, with the config's sample rate |
| Client.TelemetronClient.Counter | lib/client.rb:78-87 | `counter` is a metric call of kind counter, with the value truncated by `to_i` |
| Client.TelemetronClient.Gauge | lib/client.rb:98-107 | `gauge` is a metric call of kind gauge |

## Left out

- The socket (lib/client.rb:194-196) is left out. It is a thread-local `UDPSocket` resolved through `Addrinfo`: real network I/O and per-thread state. The `transport` parameter stands in for what `socket.send` does with a datagram. Calling `send` with one argument is not modelled as an error of its own. It counts as whatever `transport` says.
- The clock and the random number generator are parameters (`now`, `draw`). Sampling is modelled with an integer draw in 1..100.
- A Float value is not formatted. `Value.Float` carries its Ruby `to_s` text as given, plus a numerator and denominator used by `to_i`.
- A Hash or Array value is not rendered with `to_s`, nor is any other object. The config and options are required to hold text-like values where the source interpolates them (`DocumentedConfig`, `DocumentedOptions`).
- Logger levels are not modelled: a message is filtered by `Logger`, not by this code. The log records every call to `debug` or `error`.
- Concurrency is not modelled: the buffer is not shared between threads.
- The config is fixed after construction. Tests that rewrite `config[:sample_rate]` or `config[:dryrun]` through the accessor are covered instead by lemmas over any config that holds those values.
- A non-Integer `:sample_rate` or `:flush_size` is not modelled. Both are required to be Integers, as documented.
- An empty aggregation list is modelled, but a `nil` `sample_rate` argument to `put` is not. The three metric calls always pass the config's Integer rate.
- Client.TelemetronClient.Put: gates with the intended `Sampling.Kept`, not the source's integer-division test, and flushes through `PutRaw` with the newline join, not the source's backslash-n; see Findings. Both as written are modelled at the step level by `Client.PutStepAsWritten`, not by a method of the class.
- Client.FlushStep: joins the batch with a newline, not the two-character `\n` the source writes; see Findings. The join as written is modelled by `Client.FlushStepAsWritten`. The class methods use the corrected join. `Client.DryRunLogsInsteadOfSending`, `Client.SocketErrorReported` and `Client.OtherErrorPropagates` are stated for both joins.
- Client.TelemetronClient.Flush: its new state is `Client.FlushStep`'s, so a batch is joined with a newline, not the source's backslash-n; `Client.FlushStepAsWritten` is the as-written flush.
- Client.TelemetronClient.FlushMetrics: is `Flush`, so it carries the same newline join.
- Client.TelemetronClient.PutRaw: flushes with the newline join, not the source's backslash-n; `Client.PutRawStepAsWritten` is the as-written step.
- Client.TelemetronClient.Emit: reaches `Put`, so it carries both corrections, the `draw <= rate` gate and the newline join; at rates 1 to 99 it keeps lines the source drops (`Client.PutAsWrittenDropsBelowFullRate`).
- Client.TelemetronClient.Timer: a call of `Emit`, so it carries both corrections, the gate and the join.
- Client.TelemetronClient.Counter: a call of `Emit`, so it carries both corrections, the gate and the join.
- Client.TelemetronClient.Gauge: a call of `Emit`, so it carries both corrections, the gate and the join.
- Client.PutRawStep: flushes through `Client.FlushStep`, so it carries the newline join; `Client.PutRawStepAsWritten` is its as-written partner.
- Client.PutStep: carries both corrections, the `draw <= rate` gate and the newline join; `Client.PutStepAsWritten` is its as-written partner.
- Client.EmitStep: is `Client.PutStep` of the kind's line, so it carries both corrections.
- Client.PutRawFlushesAtFlushSize, Client.PutRawKeepsBound and Client.PutRawAllBuffers: are stated of `Client.PutRawStep` and so of the newline join; none of them depends on the join, and `Client.PutRawAllAsWrittenBuffers` states the last one as written.
- Client.FillThenFlush: states the newline-joined datagram; `Client.FillThenFlushAsWritten` states the backslash-n datagram the source sends.
- Client.KeptMetricSocketError: its premise is the corrected gate, which at rates 1 to 99 keeps draws the source drops; `Client.KeptMetricSocketErrorAsWritten` states the case the source keeps, rate 100.
- Client.ZeroRateDropsEverything and Client.FullRateKeepsEverything: are stated of `Client.PutStep`; at rates 0 and 100 the two gates agree (`Sampling.GatesAgreeAtExtremes`).
- Client.FlushDeliversEveryLine: holds of the corrected newline join only; of the source as written, `Client.FlushAsWrittenSendsOneLine` shows the datagram reads as one line.

## Findings

| source | as written | input that shows it | evidently intended | confidence | as-written member | corrected member |
|---|---|---|---|---|---|---|
| lib/client.rb:131-137 | `sample_rate / 100` is Integer division, so every rate below 100 becomes 0 and drops every metric | `sample_rate` 50, draw 1: `0.01 <= 0` is false, so the metric is dropped | keep a metric when `draw <= sample_rate`, i.e. with probability `sample_rate` percent | high (not executed) | Sampling.HalfRateDropsAsWritten | Sampling.KeepingDrawsCount |
| lib/client.rb:170 | `@buffer.join('\n')` joins with a backslash and the letter n, so a batch of several lines is one line | buffer `["a 1 1", "b 2 2"]` gives `a 1 1\nb 2 2` with a literal backslash, which has no newline in it | join with a newline character, so each metric is its own line | high (not executed) | Wire.BatchAsWrittenMergesTwoLines | Wire.BatchSplitsIntoLines |

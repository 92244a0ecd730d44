/**
  The line protocol the client emits, stated on already rendered fields:

    <name>[,<key>=<value>]* <value> <timestamp>[ <agg>,...,<agg_freq> <sample_rate>]

  together with a parser for it, so that what a line means can be stated as
  "parsing it gives back these fields", and the batching of lines into one
  datagram.
*/
module Wire {
  import opened Wrappers
  import opened Strings

  /** The aggregation segment: the aggregations with the frequency last, then the sample rate. */
  datatype Suffix = Suffix(aggregations: seq<string>, sampleRate: string)

  /** One metric line, field by field, as text. */
  datatype Line = Line(
    name: string,
    tags: seq<(string, string)>,
    value: string,
    timestamp: string,
    suffix: Option<Suffix>)

  function TagField(tag: (string, string)): string
  {
    tag.0 + "=" + tag.1
  }

  function TagFields(tags: seq<(string, string)>): (fields: seq<string>)
    ensures |fields| == |tags|
    ensures forall i :: 0 <= i < |tags| ==> fields[i] == TagField(tags[i])
  {
    if |tags| == 0 then [] else [TagField(tags[0])] + TagFields(tags[1..])
  }

  lemma {:induction false} TagFieldsSnoc(tags: seq<(string, string)>, tag: (string, string))
    ensures TagFields(tags + [tag]) == TagFields(tags) + [TagField(tag)]
  {
    if |tags| > 0 {
      assert (tags + [tag])[1..] == tags[1..] + [tag];
      TagFieldsSnoc(tags[1..], tag);
    }
  }

  /** The comma-separated fields of the first token: the name, then one `key=value` per tag. */
  function HeadFields(l: Line): seq<string>
  {
    [l.name] + TagFields(l.tags)
  }

  /** The space-separated tokens of a line. */
  function Tokens(l: Line): seq<string>
  {
    [Join(HeadFields(l), ","), l.value, l.timestamp]
    + match l.suffix
      case None => []
      case Some(s) => [Join(s.aggregations, ","), s.sampleRate]
  }

  function Format(l: Line): string
  {
    Join(Tokens(l), " ")
  }

  /** A formatted line, separator by separator. */
  lemma FormatUnfold(l: Line)
    ensures l.suffix.None? ==>
      Format(l) == Join(HeadFields(l), ",") + " " + l.value + " " + l.timestamp
    ensures l.suffix.Some? ==>
      Format(l) == Join(HeadFields(l), ",") + " " + l.value + " " + l.timestamp
        + " " + Join(l.suffix.value.aggregations, ",") + " " + l.suffix.value.sampleRate
  {
    var head := Join(HeadFields(l), ",");
    JoinSnoc([head], " ", l.value);
    assert [head] + [l.value] == [head, l.value];
    JoinSnoc([head, l.value], " ", l.timestamp);
    assert [head, l.value] + [l.timestamp] == [head, l.value, l.timestamp];
    if l.suffix.Some? {
      var aggText := Join(l.suffix.value.aggregations, ",");
      JoinSnoc([head, l.value, l.timestamp], " ", aggText);
      assert [head, l.value, l.timestamp] + [aggText] == [head, l.value, l.timestamp, aggText];
      JoinSnoc([head, l.value, l.timestamp, aggText], " ", l.suffix.value.sampleRate);
      assert Tokens(l) == [head, l.value, l.timestamp, aggText] + [l.suffix.value.sampleRate];
    } else {
      assert Tokens(l) == [head, l.value, l.timestamp];
    }
  }

  /** No field holds a character the format uses as a separator where that field sits. */
  predicate WellFormed(l: Line)
  {
    && ' ' !in l.name && ',' !in l.name
    && (forall i :: 0 <= i < |l.tags| ==>
          ' ' !in l.tags[i].0 && ',' !in l.tags[i].0 && '=' !in l.tags[i].0
          && ' ' !in l.tags[i].1 && ',' !in l.tags[i].1 && '=' !in l.tags[i].1)
    && ' ' !in l.value && ' ' !in l.timestamp
    && (l.suffix.Some? ==>
          |l.suffix.value.aggregations| >= 1
          && (forall i :: 0 <= i < |l.suffix.value.aggregations| ==>
                ' ' !in l.suffix.value.aggregations[i] && ',' !in l.suffix.value.aggregations[i])
          && ' ' !in l.suffix.value.sampleRate)
  }

  /** Reads `key=value` fields; fails on a field without exactly one `=`. */
  function ParseTags(fields: seq<string>): Option<seq<(string, string)>>
  {
    if |fields| == 0 then Some([])
    else
      var kv := Split(fields[0], '=');
      var rest := ParseTags(fields[1..]);
      if |kv| != 2 || rest.None? then None
      else Some([(kv[0], kv[1])] + rest.value)
  }

  /** Reads a line back into its fields: three tokens, or five when the aggregation segment is present. */
  function Parse(text: string): Option<Line>
  {
    var tokens := Split(text, ' ');
    if |tokens| != 3 && |tokens| != 5 then None
    else
      var head := Split(tokens[0], ',');
      var tags := ParseTags(head[1..]);
      if tags.None? then None
      else
        var suffix := if |tokens| == 3 then None else Some(Suffix(Split(tokens[3], ','), tokens[4]));
        Some(Line(head[0], tags.value, tokens[1], tokens[2], suffix))
  }

  lemma {:induction false} ParseTagFields(tags: seq<(string, string)>)
    requires forall i :: 0 <= i < |tags| ==> '=' !in tags[i].0 && '=' !in tags[i].1
    ensures ParseTags(TagFields(tags)) == Some(tags)
  {
    if |tags| > 0 {
      SplitJoin([tags[0].0, tags[0].1], '=');
      ParseTagFields(tags[1..]);
      assert [tags[0]] + tags[1..] == tags;
    }
  }

  /** A well-formed line reads back as itself. */
  lemma ParseFormat(l: Line)
    requires WellFormed(l)
    ensures Parse(Format(l)) == Some(l)
  {
    var head := HeadFields(l);
    forall i | 0 <= i < |head| ensures ' ' !in head[i] && ',' !in head[i] {
      if i > 0 {
        JoinAvoids([l.tags[i - 1].0, l.tags[i - 1].1], "=", ' ');
        JoinAvoids([l.tags[i - 1].0, l.tags[i - 1].1], "=", ',');
      }
    }
    JoinAvoids(head, ",", ' ');
    var tokens := Tokens(l);
    if l.suffix.Some? {
      JoinAvoids(l.suffix.value.aggregations, ",", ' ');
      SplitJoin(l.suffix.value.aggregations, ',');
    }
    SplitJoin(tokens, ' ');
    assert Split(Format(l), ' ') == tokens;
    SplitJoin(head, ',');
    assert Split(tokens[0], ',') == head;
    ParseTagFields(l.tags);
    assert head[1..] == TagFields(l.tags);
    assert head[0] == l.name;
    if l.suffix.Some? {
      assert |tokens| == 5;
      assert Split(tokens[3], ',') == l.suffix.value.aggregations;
    } else {
      assert tokens == [Join(head, ","), l.value, l.timestamp];
    }
  }

  /** Whenever a text parses, formatting the result gives the text back. */
  lemma FormatParse(text: string)
    requires Parse(text).Some?
    ensures Format(Parse(text).value) == text
  {
    var tokens := Split(text, ' ');
    var head := Split(tokens[0], ',');
    var l := Parse(text).value;
    JoinSplit(text, ' ');
    JoinSplit(tokens[0], ',');
    ParseTagsFields(head[1..]);
    assert HeadFields(l) == head;
    if |tokens| == 5 {
      JoinSplit(tokens[3], ',');
    }
    assert Tokens(l) == tokens;
  }

  lemma {:induction false} ParseTagsFields(fields: seq<string>)
    requires ParseTags(fields).Some?
    ensures TagFields(ParseTags(fields).value) == fields
  {
    if |fields| > 0 {
      ParseTagsFields(fields[1..]);
      JoinSplit(fields[0], '=');
      var kv := Split(fields[0], '=');
      assert Join(kv, "=") == kv[0] + "=" + kv[1];
    }
  }

  // ---------------------------------------------------------------------
  // Batches
  // ---------------------------------------------------------------------

  /**
    The separator lib/client.rb:170 joins buffered lines with: the Ruby
    literal '\n' in single quotes, i.e. a backslash followed by the letter n.
  */
  const LiteralBackslashN: string := ['\\', 'n']

  /** The batch as written: lines joined with backslash-n. */
  function BatchAsWritten(lines: seq<string>): string
  {
    Join(lines, LiteralBackslashN)
  }

  /** The batch as intended: one line per metric, separated by newlines. */
  function Batch(lines: seq<string>): string
  {
    Join(lines, "\n")
  }

  /** A collector that reads newline-separated lines recovers every line of a batch. */
  lemma BatchSplitsIntoLines(lines: seq<string>)
    requires |lines| >= 1
    requires forall i :: 0 <= i < |lines| ==> '\n' !in lines[i]
    ensures Split(Batch(lines), '\n') == lines
  {
    SplitJoin(lines, '\n');
  }

  /** The batch as written holds no newline, so such a collector reads one line whatever the batch size. */
  lemma BatchAsWrittenIsOneLine(lines: seq<string>)
    requires forall i :: 0 <= i < |lines| ==> '\n' !in lines[i]
    ensures Split(BatchAsWritten(lines), '\n') == [BatchAsWritten(lines)]
  {
    JoinAvoids(lines, LiteralBackslashN, '\n');
    SplitNoSeparator(BatchAsWritten(lines), '\n');
  }

  /** Two lines flushed together as written read back as one line. */
  lemma BatchAsWrittenMergesTwoLines()
    ensures |Split(BatchAsWritten(["a 1 1", "b 2 2"]), '\n')| == 1
    ensures |Split(Batch(["a 1 1", "b 2 2"]), '\n')| == 2
  {
    BatchAsWrittenIsOneLine(["a 1 1", "b 2 2"]);
    BatchSplitsIntoLines(["a 1 1", "b 2 2"]);
  }
}

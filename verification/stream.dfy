/** The streaming response consumer: the fold of `chat_once` over the lines of a streamed reply. */
module Stream {
  import opened Wrappers
  import opened Seqs

  /** The `message` field of a record: an object whose `content` may be absent, or any other JSON value. */
  datatype MessageField = Object(content: Option<string>) | NonObject

  /** One line of the response body, already classified: empty, not parseable as JSON, or a
      record with its `message`, `response` and (truthiness of its) `done` fields. */
  datatype StreamLine =
    | Blank
    | Malformed
    | Record(message: Option<MessageField>, response: Option<string>, done: bool)

  /** What reading the stream produces: the fragments printed, in order, and the accumulated reply. */
  datatype Consumed = Consumed(emitted: seq<string>, text: string)

  /** Concatenation of a sequence of fragments. */
  function Concat(fs: seq<string>): string {
    if |fs| == 0 then "" else fs[0] + Concat(fs[1..])
  }

  /** The text fragment a line contributes: a `message` object's `content` (empty when absent)
      takes precedence over `response`; a record with neither, and any line that is not a
      record, contributes the empty text. */
  function Fragment(line: StreamLine): string {
    match line
    case Record(message, response, _) =>
      if message.Some? && message.value.Object? then message.value.content.GetOr("")
      else if response.Some? then response.value
      else ""
    case _ => ""
  }

  /** The precedence between the fields, stated as relations between records: a `message`
      object masks `response` entirely, a `message` that is not an object counts as absent,
      the `done` marker never changes the fragment, and lines that are not records have none. */
  lemma FragmentPrecedence(c: Option<string>, r: Option<string>, d: bool)
    ensures Fragment(Record(Some(Object(c)), r, d)) == Fragment(Record(Some(Object(c)), None, d))
    ensures Fragment(Record(Some(Object(c)), r, d)) == c.GetOr("")
    ensures Fragment(Record(Some(NonObject), r, d)) == Fragment(Record(None, r, d))
    ensures Fragment(Record(None, r, d)) == r.GetOr("")
    ensures forall m: Option<MessageField> :: Fragment(Record(m, r, d)) == Fragment(Record(m, r, !d))
    ensures Fragment(Blank) == "" && Fragment(Malformed) == ""
  {
  }

  /** Whether the line is a record whose `done` marker ends the stream. */
  predicate EndsStream(line: StreamLine) {
    line.Record? && line.done
  }

  /** The line loop of `chat_once`: blank and unparseable lines are skipped, each non-empty
      fragment is printed and appended, and the first record marked done ends the loop after
      its own fragment is handled. */
  function Consume(lines: seq<StreamLine>): (c: Consumed)
    // only non-empty fragments are printed
    ensures forall i :: 0 <= i < |c.emitted| ==> c.emitted[i] != ""
    // the reply is what was printed, in order
    ensures c.text == Concat(c.emitted)
    // the reply is empty exactly when nothing was printed
    ensures c.text == "" <==> c.emitted == []
    decreases |lines|
  {
    if |lines| == 0 then Consumed([], "")
    else
      var line := lines[0];
      if !line.Record? then Consume(lines[1..])
      else
        var f := Fragment(line);
        var rest := if line.done then Consumed([], "") else Consume(lines[1..]);
        if f != "" then Consumed([f] + rest.emitted, f + rest.text) else rest
  }

  /** How many lines the loop reads: up to and including the first record marked done, or all of them. */
  function ReadCount(lines: seq<StreamLine>): (n: nat)
    ensures n <= |lines|
    // no line before the last one read ends the stream
    ensures forall j :: 0 <= j < n - 1 ==> !EndsStream(lines[j])
    // reading stops early only at a record marked done
    ensures n < |lines| ==> 0 < n && EndsStream(lines[n - 1])
  {
    if |lines| == 0 then 0
    else if EndsStream(lines[0]) then 1
    else 1 + ReadCount(lines[1..])
  }

  /** The non-empty fragments of all the given lines, in order, ignoring `done` markers. */
  function NonEmptyFragments(lines: seq<StreamLine>): seq<string> {
    if |lines| == 0 then []
    else (if Fragment(lines[0]) != "" then [Fragment(lines[0])] else []) + NonEmptyFragments(lines[1..])
  }

  /** The reference reading of the loop: the fragments printed are exactly the non-empty
      fragments of the lines read, and the reply is their concatenation. */
  lemma {:induction false} ConsumeReadsUpToFirstDone(lines: seq<StreamLine>)
    ensures Consume(lines).emitted == NonEmptyFragments(lines[..ReadCount(lines)])
    ensures Consume(lines).text == Concat(NonEmptyFragments(lines[..ReadCount(lines)]))
    decreases |lines|
  {
    if |lines| > 0 {
      var n := ReadCount(lines);
      assert lines[..n][0] == lines[0];
      if EndsStream(lines[0]) {
        assert lines[..n][1..] == [];
      } else {
        ConsumeReadsUpToFirstDone(lines[1..]);
        assert lines[..n][1..] == lines[1..][..ReadCount(lines[1..])];
      }
    }
  }

  /** Nothing after a record marked done contributes: any lines may follow it. */
  lemma {:induction false} LinesAfterDoneIgnored(lines: seq<StreamLine>, i: nat, rest: seq<StreamLine>)
    requires i < |lines| && EndsStream(lines[i])
    ensures Consume(lines[..i + 1] + rest) == Consume(lines)
    decreases i
  {
    var a := lines[..i + 1] + rest;
    assert a[0] == lines[0];
    if i > 0 {
      assert a[1..] == lines[1..][..i] + rest;
      LinesAfterDoneIgnored(lines[1..], i - 1, rest);
    }
  }

  /** The record that ends the stream still contributes its own fragment, after everything the
      lines before it contributed. */
  lemma {:induction false} DoneRecordCounts(lines: seq<StreamLine>, i: nat)
    requires i < |lines| && EndsStream(lines[i])
    requires forall j :: 0 <= j < i ==> !EndsStream(lines[j])
    ensures var f := Fragment(lines[i]);
            Consume(lines).emitted == Consume(lines[..i]).emitted + (if f != "" then [f] else [])
    ensures Consume(lines).text == Consume(lines[..i]).text + Fragment(lines[i])
    decreases i
  {
    if i > 0 {
      var f := Fragment(lines[0]);
      var now := if lines[0].Record? && f != "" then [f] else [];
      var fi := Fragment(lines[i]);
      var last := if fi != "" then [fi] else [];
      assert lines[..i][0] == lines[0] && lines[..i][1..] == lines[1..][..i - 1];
      DoneRecordCounts(lines[1..], i - 1);
      assert Consume(lines).emitted == now + Consume(lines[1..]).emitted;
      assert Consume(lines[..i]).emitted == now + Consume(lines[1..][..i - 1]).emitted;
      AppendAssoc(now, Consume(lines[1..][..i - 1]).emitted, last);
      var ft := if lines[0].Record? then f else "";
      assert Consume(lines).text == ft + Consume(lines[1..]).text;
      assert Consume(lines[..i]).text == ft + Consume(lines[1..][..i - 1]).text;
      AppendAssoc(ft, Consume(lines[1..][..i - 1]).text, fi);
    }
  }

  /** A single record on its own: the reply is its fragment, printed when non-empty. */
  lemma SingleRecordReply(rec: StreamLine)
    requires rec.Record?
    ensures Consume([rec]).text == Fragment(rec)
    ensures Consume([rec]).emitted == if Fragment(rec) != "" then [Fragment(rec)] else []
  {
    assert [rec][1..] == [];
  }

  /** The lines that are records, in order: what is left once blank and unparseable lines go. */
  function RecordsOnly(lines: seq<StreamLine>): (rs: seq<StreamLine>)
    ensures forall i :: 0 <= i < |rs| ==> rs[i].Record?
  {
    if |lines| == 0 then []
    else (if lines[0].Record? then [lines[0]] else []) + RecordsOnly(lines[1..])
  }

  /** Blank and unparseable lines are skipped without ending the stream: removing them all
      changes nothing. */
  lemma {:induction false} NoiseIgnored(lines: seq<StreamLine>)
    ensures Consume(RecordsOnly(lines)) == Consume(lines)
    decreases |lines|
  {
    if |lines| > 0 {
      NoiseIgnored(lines[1..]);
      if lines[0].Record? {
        var rs := RecordsOnly(lines);
        assert rs == [lines[0]] + RecordsOnly(lines[1..]);
        assert rs[0] == lines[0] && rs[1..] == RecordsOnly(lines[1..]);
        assert Consume(rs[1..]) == Consume(lines[1..]);
      } else {
        assert RecordsOnly(lines) == RecordsOnly(lines[1..]);
      }
    }
  }

  /** What the line at `i` adds in front of the rest of the stream. */
  lemma ConsumeAt(lines: seq<StreamLine>, i: nat)
    requires i < |lines|
    ensures var f := Fragment(lines[i]);
            var now := if f != "" then [f] else [];
            var rest := if EndsStream(lines[i]) then Consumed([], "") else Consume(lines[i + 1..]);
            Consume(lines[i..]).emitted == now + rest.emitted && Consume(lines[i..]).text == f + rest.text
  {
    assert lines[i..][0] == lines[i] && lines[i..][1..] == lines[i + 1..];
  }

  /** The loop of `chat_once` as the source writes it, with `print` appending to `printed`. */
  method ReadStream(lines: seq<StreamLine>) returns (printed: seq<string>, assistantText: string)
    ensures printed == Consume(lines).emitted
    ensures assistantText == Consume(lines).text
  {
    printed := [];
    assistantText := "";
    var i := 0;
    while i < |lines|
      invariant 0 <= i <= |lines|
      invariant Consume(lines).emitted == printed + Consume(lines[i..]).emitted
      invariant Consume(lines).text == assistantText + Consume(lines[i..]).text
    {
      var line := lines[i];
      ConsumeAt(lines, i);
      if !line.Record? {
        i := i + 1;
        continue;
      }
      var delta := Fragment(line);
      if delta != "" {
        AppendAssoc(printed, [delta], Consume(lines[i + 1..]).emitted);
        AppendAssoc(assistantText, delta, Consume(lines[i + 1..]).text);
        printed := printed + [delta];
        assistantText := assistantText + delta;
      }
      if line.done {
        break;
      }
      i := i + 1;
    }
  }

  /** A reply stream with noise, two fragments, a done marker and a line after it. */
  lemma MixedStreamExample()
    ensures var lines := [Malformed,
                          Record(Some(Object(Some("Hi"))), None, false),
                          Record(None, Some(" there"), false),
                          Record(None, None, true),
                          Record(Some(Object(Some("ignored"))), None, false)];
            Consume(lines) == Consumed(["Hi", " there"], "Hi there")
  {
  }

  /** A `message` object wins over `response`, and a `message` that is not an object defers to it. */
  lemma FragmentPrecedenceExample()
    ensures Fragment(Record(Some(Object(None)), Some("r"), false)) == ""
    ensures Fragment(Record(Some(NonObject), Some("r"), false)) == "r"
  {
  }
}

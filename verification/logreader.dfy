/** `read_log_file`: transcripts from a CSV file, or from a text file whose
    lines are JSON values or plain text. The file itself is an input: its
    `csv.DictReader` rows and its whole text are given, and `json.loads` and
    `str()` of a decoded value are parameters. */
module LogReader {
  import opened Wrappers
  import opened Json
  import opened Text
  import opened CsvInput

  /** One log file as the two readers see it. */
  datatype LogFile = LogFile(path: string, rows: seq<Row>, content: string)

  /** `str(data)` of a decoded value. */
  type Render = Json -> string

  /** The `TypeError`s raised by `data['transcript']` (or `data['message']`)
      on a string or a list that mentions the key, as Python 3.11 and later
      word them. These, like the one below, are not `JSONDecodeError`, so
      they escape `read_log_file`. */
  const StringIndexError: string := "string indices must be integers, not 'str'"
  const ListIndexError: string := "list indices must be integers or slices, not str"

  /** The `TypeError` of `'transcript' in data` on `null`, a number or a
      boolean. */
  function NotIterableError(data: Json): string {
    "argument of type '" + TypeName(data) + "' is not iterable"
  }

  /** Whether `key in data` holds for a decoded value that supports `in`:
      a key of an object, a substring of a string, an element of a list. */
  predicate Mentions(data: Json, key: string)
    requires data.JObject? || data.JStr? || data.JArray?
  {
    match data
    case JObject(fields) => key in fields
    case JStr(s) => Contains(s, key)
    case JArray(items) => JStr(key) in items
  }

  /** The transcript one non-blank, stripped line yields. */
  function ExtractLine(line: string, parse: Parser, render: Render): (r: Result<Json, string>)
    ensures parse(line).None? ==> r == Success(JStr(line))
    ensures parse(line).Some? && parse(line).value.JObject? ==>
      var fields := parse(line).value.fields;
      r.Success? &&
      r.value == (if "transcript" in fields then fields["transcript"]
                  else if "message" in fields then fields["message"]
                  else JStr(render(parse(line).value)))
    ensures parse(line).Some? && (parse(line).value.JStr? || parse(line).value.JArray?) ==>
      (r.Failure? <==> Mentions(parse(line).value, "transcript") || Mentions(parse(line).value, "message"))
    ensures parse(line).Some? && parse(line).value.JStr? && r.Success? ==> r.value == parse(line).value
    ensures parse(line).Some? && (parse(line).value.JNull? || parse(line).value.JAtom?) ==> r.Failure?
    ensures parse(line).Some? && parse(line).value.JArray? && r.Success? ==>
      r.value == JStr(render(parse(line).value))
    ensures parse(line).Some? && r.Failure? ==>
      r.error == (if parse(line).value.JStr? then StringIndexError
                  else if parse(line).value.JArray? then ListIndexError
                  else NotIterableError(parse(line).value))
  {
    match parse(line)
    case None => Success(JStr(line))
    case Some(data) =>
      match data
      case JObject(fields) =>
        if "transcript" in fields then Success(fields["transcript"])
        else if "message" in fields then Success(fields["message"])
        else Success(JStr(render(data)))
      case JStr(s) =>
        // `str` of a string is the string itself.
        if Contains(s, "transcript") || Contains(s, "message") then Failure(StringIndexError)
        else Success(data)
      case JArray(items) =>
        if JStr("transcript") in items || JStr("message") in items then Failure(ListIndexError)
        else Success(JStr(render(data)))
      case _ => Failure(NotIterableError(data))
  }

  /** Positions of the lines that are not blank, in order. */
  function NonBlankIndices(lines: seq<string>): (kept: seq<nat>)
    ensures |kept| <= |lines|
    ensures forall k :: 0 <= k < |kept| ==> kept[k] < |lines|
  {
    if |lines| == 0 then []
    else NonBlankIndices(lines[..|lines| - 1]) + (if IsBlank(lines[|lines| - 1]) then [] else [|lines| - 1])
  }

  /** Exactly the lines that are not blank are kept, in order: the k-th
      position is that of the k-th such line. */
  lemma {:induction false} NonBlankIndicesSpec(lines: seq<string>)
    ensures forall k, m :: 0 <= k < m < |NonBlankIndices(lines)| ==> NonBlankIndices(lines)[k] < NonBlankIndices(lines)[m]
    ensures forall j :: 0 <= j < |lines| ==> (j in NonBlankIndices(lines) <==> !IsBlank(lines[j]))
  {
    if |lines| > 0 {
      NonBlankIndicesSpec(lines[..|lines| - 1]);
    }
  }

  /** The stripped lines that are not blank, in order. */
  function NonBlank(lines: seq<string>): (r: seq<string>)
    ensures |r| == |NonBlankIndices(lines)|
    ensures forall k :: 0 <= k < |r| ==> r[k] != [] && IsStripped(r[k])
  {
    if |lines| == 0 then []
    else
      var line := Strip(lines[|lines| - 1]);
      StripEmptyIffBlank(lines[|lines| - 1]);
      NonBlank(lines[..|lines| - 1]) + (if line == [] then [] else [line])
  }

  /** The k-th line kept is the k-th non-blank line, stripped. */
  lemma {:induction false} NonBlankSpec(lines: seq<string>)
    ensures forall k :: 0 <= k < |NonBlank(lines)| ==> NonBlank(lines)[k] == Strip(lines[NonBlankIndices(lines)[k]])
  {
    if |lines| > 0 {
      var init, last := lines[..|lines| - 1], lines[|lines| - 1];
      NonBlankSpec(init);
      StripEmptyIffBlank(last);
      var r0, idx0 := NonBlank(init), NonBlankIndices(init);
      assert NonBlank(lines) == r0 + (if Strip(last) == [] then [] else [Strip(last)]);
      assert NonBlankIndices(lines) == idx0 + (if IsBlank(last) then [] else [|lines| - 1]);
      forall k | 0 <= k < |NonBlank(lines)|
        ensures NonBlank(lines)[k] == Strip(lines[NonBlankIndices(lines)[k]])
      {
        if k < |r0| {
          assert NonBlank(lines)[k] == r0[k];
          assert NonBlankIndices(lines)[k] == idx0[k];
          assert lines[idx0[k]] == init[idx0[k]];
        } else {
          assert NonBlankIndices(lines)[k] == |lines| - 1;
        }
      }
    }
  }

  /** `content.strip().split('\n')`: the lines of the text branch before
      the blank ones are skipped. */
  function RawLines(content: string): seq<string> {
    Split(Strip(content), '\n')
  }

  /** The lines the text branch visits: each line of the stripped text,
      stripped, the blank ones skipped. */
  function TextLines(content: string): seq<string> {
    NonBlank(RawLines(content))
  }

  /** The loop over the visited lines: one transcript per line, in order; the
      first line that raises ends the read with its error. */
  function ExtractAll(lines: seq<string>, parse: Parser, render: Render): (r: Result<seq<Json>, string>)
    ensures r.Success? <==> forall k :: 0 <= k < |lines| ==> ExtractLine(lines[k], parse, render).Success?
    ensures r.Success? ==>
      |r.value| == |lines| &&
      forall k :: 0 <= k < |lines| ==> r.value[k] == ExtractLine(lines[k], parse, render).value
    ensures r.Failure? ==>
      exists k :: 0 <= k < |lines| &&
        (forall m :: 0 <= m < k ==> ExtractLine(lines[m], parse, render).Success?) &&
        ExtractLine(lines[k], parse, render) == Failure(r.error)
  {
    if |lines| == 0 then Success([])
    else
      match ExtractLine(lines[0], parse, render)
      case Failure(e) => Failure(e)
      case Success(v) =>
        match ExtractAll(lines[1..], parse, render)
        case Failure(e) =>
          FirstErrorShift(lines, parse, render, e);
          Failure(e)
        case Success(vs) =>
          assert forall k :: 1 <= k < |lines| ==> lines[k] == lines[1..][k - 1];
          Success([v] + vs)
  }

  /** A first failing line after a line that reads is the first failing
      line of the whole. */
  lemma FirstErrorShift(lines: seq<string>, parse: Parser, render: Render, e: string)
    requires |lines| > 0 && ExtractLine(lines[0], parse, render).Success?
    requires exists k ::
      && 0 <= k < |lines[1..]|
      && (forall m :: 0 <= m < k ==> ExtractLine(lines[1..][m], parse, render).Success?)
      && ExtractLine(lines[1..][k], parse, render) == Failure(e)
    ensures exists k ::
      && 0 <= k < |lines|
      && (forall m :: 0 <= m < k ==> ExtractLine(lines[m], parse, render).Success?)
      && ExtractLine(lines[k], parse, render) == Failure(e)
  {
    var k :| 0 <= k < |lines[1..]| &&
      (forall m :: 0 <= m < k ==> ExtractLine(lines[1..][m], parse, render).Success?) &&
      ExtractLine(lines[1..][k], parse, render) == Failure(e);
    assert lines[k + 1] == lines[1..][k];
    assert forall m :: 1 <= m < k + 1 ==> lines[m] == lines[1..][m - 1];
  }

  /** When every non-blank line, stripped, reads without error, so does the
      text branch. */
  lemma VisitedAllOk(lines: seq<string>, parse: Parser, render: Render)
    requires forall k :: 0 <= k < |NonBlankIndices(lines)| ==>
      ExtractLine(Strip(lines[NonBlankIndices(lines)[k]]), parse, render).Success?
    ensures ExtractAll(NonBlank(lines), parse, render).Success?
  {
    var kept := NonBlankIndices(lines);
    var visited := NonBlank(lines);
    NonBlankSpec(lines);
    forall k | 0 <= k < |visited| ensures ExtractLine(visited[k], parse, render).Success? {
      assert visited[k] == Strip(lines[kept[k]]);
    }
  }

  /** On success the k-th non-blank line, stripped, yields the k-th
      transcript. */
  lemma VisitedValues(lines: seq<string>, parse: Parser, render: Render)
    ensures var kept := NonBlankIndices(lines);
      var r := ExtractAll(NonBlank(lines), parse, render);
      r.Success? ==>
        |r.value| == |kept| &&
        forall k :: 0 <= k < |kept| ==> ExtractLine(Strip(lines[kept[k]]), parse, render) == Success(r.value[k])
  {
    NonBlankSpec(lines);
  }

  /** On failure the error is that of the first non-blank line that raises. */
  lemma VisitedFirstError(lines: seq<string>, parse: Parser, render: Render)
    requires ExtractAll(NonBlank(lines), parse, render).Failure?
    ensures exists k ::
      && 0 <= k < |NonBlankIndices(lines)|
      && (forall m :: 0 <= m < k ==> ExtractLine(Strip(lines[NonBlankIndices(lines)[m]]), parse, render).Success?)
      && ExtractLine(Strip(lines[NonBlankIndices(lines)[k]]), parse, render) == Failure(ExtractAll(NonBlank(lines), parse, render).error)
  {
    var kept := NonBlankIndices(lines);
    var visited := NonBlank(lines);
    var e := ExtractAll(visited, parse, render).error;
    NonBlankSpec(lines);
    var k :| 0 <= k < |visited| &&
      (forall m :: 0 <= m < k ==> ExtractLine(visited[m], parse, render).Success?) &&
      ExtractLine(visited[k], parse, render) == Failure(e);
    assert visited[k] == Strip(lines[kept[k]]);
    forall m | 0 <= m < k ensures ExtractLine(Strip(lines[kept[m]]), parse, render).Success? {
      assert visited[m] == Strip(lines[kept[m]]);
    }
  }

  /** The CSV branch of `read_log_file`: the non-empty `transcript` cells,
      in row order. */
  function ReadCsvRows(rows: seq<Row>): (r: seq<Json>)
    ensures |r| == |KeptIndices(rows)|
    ensures forall k :: 0 <= k < |r| ==> KeptIndices(rows)[k] < |rows| && r[k] == JStr(RowTranscript(rows[KeptIndices(rows)[k]]))
  {
    var ts := CsvTranscripts(rows);
    CsvTranscriptsSpec(rows);
    seq(|ts|, k requires 0 <= k < |ts| => JStr(ts[k]))
  }

  /** `read_log_file`. A path ending in `.csv` (any case) reads the
      non-empty `transcript` cells in row order. Any other file is read
      line by line over `TextLines`, its non-blank lines stripped (see
      `NonBlankSpec`): the first line that raises ends the read with its
      error, and otherwise every such line yields one transcript, in order. */
  function ReadLogFile(file: LogFile, parse: Parser, render: Render): (r: Result<seq<Json>, string>)
    ensures IsCsvPath(file.path) ==>
      r.Success? &&
      |r.value| == |KeptIndices(file.rows)| &&
      forall k :: 0 <= k < |r.value| ==>
        KeptIndices(file.rows)[k] < |file.rows| && r.value[k] == JStr(RowTranscript(file.rows[KeptIndices(file.rows)[k]]))
    ensures !IsCsvPath(file.path) ==>
      (r.Success? <==> forall k :: 0 <= k < |TextLines(file.content)| ==> ExtractLine(TextLines(file.content)[k], parse, render).Success?)
    ensures !IsCsvPath(file.path) && r.Success? ==>
      |r.value| == |TextLines(file.content)| &&
      forall k :: 0 <= k < |r.value| ==> ExtractLine(TextLines(file.content)[k], parse, render) == Success(r.value[k])
    ensures !IsCsvPath(file.path) && r.Failure? ==>
      exists k ::
        && 0 <= k < |TextLines(file.content)|
        && (forall m :: 0 <= m < k ==> ExtractLine(TextLines(file.content)[m], parse, render).Success?)
        && ExtractLine(TextLines(file.content)[k], parse, render) == Failure(r.error)
  {
    if IsCsvPath(file.path) then Success(ReadCsvRows(file.rows))
    else ExtractAll(TextLines(file.content), parse, render)
  }

  /** The first and last code points of a join are those of its end pieces. */
  lemma {:induction false} JoinEnds(parts: seq<string>, sep: char)
    requires |parts| >= 1
    requires forall k :: 0 <= k < |parts| ==> parts[k] != []
    ensures Join(parts, sep) != []
    ensures Join(parts, sep)[0] == parts[0][0]
    ensures Join(parts, sep)[|Join(parts, sep)| - 1] == parts[|parts| - 1][|parts[|parts| - 1]| - 1]
  {
    if |parts| > 1 {
      JoinEnds(parts[1..], sep);
    }
  }

  /** Lines that are already stripped and non-blank pass through unchanged. */
  lemma {:induction false} NonBlankKeeps(lines: seq<string>)
    requires forall k :: 0 <= k < |lines| ==> lines[k] != [] && IsStripped(lines[k])
    ensures NonBlank(lines) == lines
  {
    if |lines| > 0 {
      var init := lines[..|lines| - 1];
      var last := lines[|lines| - 1];
      assert lines == init + [last];
      NonBlankKeeps(init);
      StripStripped(last);
      NonBlankSnoc(lines, init, last);
    }
  }

  lemma NonBlankSnoc(lines: seq<string>, init: seq<string>, last: string)
    requires lines == init + [last]
    requires NonBlank(init) == init
    requires last != [] && Strip(last) == last
    ensures NonBlank(lines) == lines
  {
    assert lines[..|lines| - 1] == init;
    assert lines[|lines| - 1] == last;
  }

  /** Plain-text lines as transcripts. */
  function AsText(lines: seq<string>): (r: seq<Json>)
    ensures |r| == |lines|
  {
    seq(|lines|, k requires 0 <= k < |lines| => JStr(lines[k]))
  }

  /** Stripped, non-empty lines written one per line are visited again,
      one by one and in order. */
  lemma TextLinesOfJoin(lines: seq<string>)
    requires forall k :: 0 <= k < |lines| ==> lines[k] != [] && IsStripped(lines[k]) && '\n' !in lines[k]
    ensures TextLines(Join(lines, '\n')) == lines
  {
    if |lines| == 0 {
      TextLinesOfEmpty();
    } else {
      JoinStripped(lines);
      SplitJoin(lines, '\n');
      NonBlankKeeps(lines);
    }
  }

  lemma JoinStripped(lines: seq<string>)
    requires |lines| >= 1
    requires forall k :: 0 <= k < |lines| ==> lines[k] != [] && IsStripped(lines[k])
    ensures Strip(Join(lines, '\n')) == Join(lines, '\n')
  {
    JoinEnds(lines, '\n');
    StripStripped(Join(lines, '\n'));
  }

  lemma TextLinesOfEmpty()
    ensures TextLines([]) == []
  {
    var blank: seq<string> := [[]];
    assert Strip([]) == [] by { StripEmptyIffBlank([]); }
    assert Split([], '\n') == blank;
    assert blank[..0] == [];
  }

  /** Lines that do not parse as JSON are kept verbatim. */
  lemma ExtractAllPlain(lines: seq<string>, parse: Parser, render: Render)
    requires forall k :: 0 <= k < |lines| ==> parse(lines[k]).None?
    ensures ExtractAll(lines, parse, render) == Success(AsText(lines))
  {
    var r := ExtractAll(lines, parse, render);
    assert forall k :: 0 <= k < |lines| ==> ExtractLine(lines[k], parse, render) == Success(JStr(lines[k]));
    assert r.Success?;
    assert r.value == AsText(lines);
  }

  /** A plain-text log: writing stripped, non-empty lines that do not parse
      as JSON one per line and reading the file back gives the same lines,
      in order, as transcripts. */
  lemma PlainTextRoundTrip(lines: seq<string>, path: string, rows: seq<Row>, parse: Parser, render: Render)
    requires !IsCsvPath(path)
    requires forall k :: 0 <= k < |lines| ==> lines[k] != [] && IsStripped(lines[k]) && '\n' !in lines[k]
    requires forall k :: 0 <= k < |lines| ==> parse(lines[k]).None?
    ensures ReadLogFile(LogFile(path, rows, Join(lines, '\n')), parse, render) == Success(AsText(lines))
  {
    TextLinesOfJoin(lines);
    ExtractAllPlain(lines, parse, render);
  }
}

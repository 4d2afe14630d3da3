/** Transcripts from CSV rows, as both scripts read them: a row whose
    `transcript` cell is missing or empty is skipped. Rows are what
    `csv.DictReader` yields; reading and splitting the file is not modelled. */
module CsvInput {
  import opened Wrappers

  /** One `csv.DictReader` row: a cell is `None` when the row is shorter
      than the header. */
  type Row = map<string, Option<string>>

  /** `row.get('transcript', '')`, with a `None` cell read as the empty
      string, since both are falsy and skipped alike. */
  function RowTranscript(row: Row): string {
    if "transcript" in row && row["transcript"].Some? then row["transcript"].value else ""
  }

  /** The `if transcript:` test. */
  predicate Kept(row: Row) {
    RowTranscript(row) != ""
  }

  /** Positions of the rows that yield a transcript, in file order. */
  function KeptIndices(rows: seq<Row>): (kept: seq<nat>)
    ensures |kept| <= |rows|
  {
    if |rows| == 0 then []
    else KeptIndices(rows[..|rows| - 1]) + (if Kept(rows[|rows| - 1]) then [|rows| - 1] else [])
  }

  /** The transcript list of `read_csv_transcripts` and of the CSV branch of
      `read_log_file`. */
  function CsvTranscripts(rows: seq<Row>): seq<string> {
    if |rows| == 0 then []
    else
      var last := rows[|rows| - 1];
      CsvTranscripts(rows[..|rows| - 1]) + (if Kept(last) then [RowTranscript(last)] else [])
  }

  /** Exactly the rows with a non-empty transcript yield one, in file order:
      the k-th transcript is the cell of the k-th such row. */
  lemma {:induction false} CsvTranscriptsSpec(rows: seq<Row>)
    ensures |CsvTranscripts(rows)| == |KeptIndices(rows)|
    ensures forall k :: 0 <= k < |KeptIndices(rows)| ==>
      KeptIndices(rows)[k] < |rows| && CsvTranscripts(rows)[k] == RowTranscript(rows[KeptIndices(rows)[k]])
    ensures forall k, m :: 0 <= k < m < |KeptIndices(rows)| ==> KeptIndices(rows)[k] < KeptIndices(rows)[m]
    ensures forall i :: 0 <= i < |rows| ==> (i in KeptIndices(rows) <==> Kept(rows[i]))
  {
    if |rows| > 0 {
      var p := rows[..|rows| - 1];
      CsvTranscriptsSpec(p);
      forall k | 0 <= k < |KeptIndices(p)| ensures rows[KeptIndices(p)[k]] == p[KeptIndices(p)[k]] {
      }
    }
  }

  /** With no empty transcript cell, every row yields its own transcript. */
  lemma AllKept(rows: seq<Row>)
    requires forall i :: 0 <= i < |rows| ==> Kept(rows[i])
    ensures KeptIndices(rows) == seq(|rows|, i requires 0 <= i < |rows| => i)
    ensures CsvTranscripts(rows) == seq(|rows|, i requires 0 <= i < |rows| => RowTranscript(rows[i]))
  {
    CsvTranscriptsSpec(rows);
    KeptAllIndices(rows);
  }

  lemma {:induction false} KeptAllIndices(rows: seq<Row>)
    requires forall i :: 0 <= i < |rows| ==> Kept(rows[i])
    ensures KeptIndices(rows) == seq(|rows|, i requires 0 <= i < |rows| => i)
  {
    if |rows| > 0 {
      KeptAllIndices(rows[..|rows| - 1]);
    }
  }
}

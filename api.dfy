/** The `/api` upload handler `api_page` (mp/app.py, lines 40-137): gate the
    upload, read the first CSV column, then look every non-blank email up in
    turn, one report entry per email, pausing after each lookup. */
module Api {
  import opened Wrappers
  import opened PyText
  import opened Json
  import opened Exposure

  /** The lookup service as the handler sees it: the outcome of the `k`-th
      lookup of this batch (counting from 0), made for `email`. */
  type Lookup = (nat, string) -> LookupOutcome

  /** What the handler does that the outside world can observe, in order:
      a lookup request for an email, and a one-second pause. */
  datatype Event = Query(email: string) | Sleep

  /** The emails the loop looks up, in input order: each cell stripped, the
      blank ones dropped. */
  function Candidates(cells: seq<string>): (r: seq<string>)
    ensures |r| <= |cells|
    ensures forall k | 0 <= k < |r| :: Trimmed(r[k])
  {
    if cells == [] then []
    else
      var done := Candidates(cells[..|cells| - 1]);
      var email := Strip(cells[|cells| - 1]);
      if email == "" then done else done + [email]
  }

  /** The `results` list the loop builds from `cells`, entry by entry; the
      entry for a candidate is built from the lookup numbered by how many
      entries precede it. */
  function Report(cells: seq<string>, lookup: Lookup): (r: seq<Entry>)
    ensures |r| == |Candidates(cells)|
  {
    if cells == [] then []
    else
      var done := Report(cells[..|cells| - 1], lookup);
      var email := Strip(cells[|cells| - 1]);
      if email == "" then done else done + [EntryFor(email, lookup(|done|, email))]
  }

  /** The events of a batch over `candidates`: each lookup followed by its
      pause. */
  function CallTrace(candidates: seq<string>): (t: seq<Event>)
    ensures |t| == 2 * |candidates|
  {
    if candidates == [] then []
    else CallTrace(candidates[..|candidates| - 1]) + [Query(candidates[|candidates| - 1]), Sleep]
  }

  lemma CallTraceSnoc(candidates: seq<string>, email: string)
    ensures CallTrace(candidates + [email]) == CallTrace(candidates) + [Query(email), Sleep]
  {
  }

  /** The number of pauses in a sequence of events. */
  function Sleeps(events: seq<Event>): nat {
    if events == [] then 0
    else Sleeps(events[..|events| - 1]) + (if events[|events| - 1].Sleep? then 1 else 0)
  }

  /** Candidates of a concatenation: input order is kept and nothing is
      merged or reordered across rows. */
  lemma {:induction false} CandidatesAppend(a: seq<string>, b: seq<string>)
    ensures Candidates(a + b) == Candidates(a) + Candidates(b)
    decreases |b|
  {
    if b == [] {
      assert a + b == a;
    } else {
      var b' := b[..|b| - 1];
      assert (a + b)[..|a + b| - 1] == a + b';
      CandidatesAppend(a, b');
    }
  }

  /** A blank or whitespace-only cell contributes nothing. */
  lemma CandidatesSkipBlank(a: seq<string>, blank: string, c: seq<string>)
    requires AllSpace(blank)
    ensures Candidates(a + [blank] + c) == Candidates(a + c)
  {
    CandidatesAppend(a + [blank], c);
    CandidatesAppend(a, [blank]);
    assert Candidates([blank]) == [] by {
      assert [blank][..0] == [];
    }
    CandidatesAppend(a, c);
  }

  /** Every candidate is the stripped form of some cell of the input. */
  lemma {:induction false} CandidatesFromCells(cells: seq<string>)
    ensures forall k | 0 <= k < |Candidates(cells)| ::
      exists i | 0 <= i < |cells| :: Candidates(cells)[k] == Strip(cells[i])
    decreases |cells|
  {
    if cells != [] {
      var init := cells[..|cells| - 1];
      var last := Strip(cells[|cells| - 1]);
      CandidatesFromCells(init);
      assert Candidates(cells) == if last == "" then Candidates(init) else Candidates(init) + [last];
      forall k | 0 <= k < |Candidates(cells)|
        ensures exists i | 0 <= i < |cells| :: Candidates(cells)[k] == Strip(cells[i])
      {
        if k < |Candidates(init)| {
          var i :| 0 <= i < |init| && Candidates(init)[k] == Strip(init[i]);
          assert init[i] == cells[i];
          assert Candidates(cells)[k] == Strip(cells[i]);
        } else {
          var i := |cells| - 1;
          assert Candidates(cells)[k] == Strip(cells[i]);
        }
      }
    } else {
      assert Candidates(cells) == [];
    }
  }

  /** Every cell that is not blank after stripping is looked up. */
  lemma {:induction false} CellsBecomeCandidates(cells: seq<string>)
    ensures forall i | 0 <= i < |cells| && Strip(cells[i]) != "" :: Strip(cells[i]) in Candidates(cells)
    decreases |cells|
  {
    if cells != [] {
      var init := cells[..|cells| - 1];
      var last := Strip(cells[|cells| - 1]);
      CellsBecomeCandidates(init);
      assert Candidates(cells) == if last == "" then Candidates(init) else Candidates(init) + [last];
      forall i | 0 <= i < |cells| && Strip(cells[i]) != ""
        ensures Strip(cells[i]) in Candidates(cells)
      {
        if i < |init| {
          assert init[i] == cells[i];
          assert Strip(init[i]) in Candidates(init);
        }
      }
    }
  }

  /** Entry `j` of the report is built from the `j`-th candidate and the
      `j`-th lookup outcome, which was obtained for that candidate. */
  lemma {:induction false} ReportAt(cells: seq<string>, lookup: Lookup)
    ensures |Report(cells, lookup)| == |Candidates(cells)|
    ensures forall j | 0 <= j < |Candidates(cells)| ::
      var email := Candidates(cells)[j];
      Report(cells, lookup)[j] == EntryFor(email, lookup(j, email))
    decreases |cells|
  {
    if cells != [] {
      ReportAt(cells[..|cells| - 1], lookup);
    }
  }

  /** A blank cell neither adds an entry nor shifts the lookups of the
      others. */
  lemma ReportSkipBlank(a: seq<string>, blank: string, c: seq<string>, lookup: Lookup)
    requires AllSpace(blank)
    ensures Report(a + [blank] + c, lookup) == Report(a + c, lookup)
  {
    CandidatesSkipBlank(a, blank, c);
    ReportAt(a + [blank] + c, lookup);
    ReportAt(a + c, lookup);
  }

  /** A failed lookup spoils only its own entry: if two runs see the same
      outcomes except for lookup `k`, which fails in the second, the second
      report has an API error at `k` and agrees with the first everywhere
      else. */
  lemma FailureIsolated(cells: seq<string>, lookup: Lookup, failing: Lookup, k: nat, detail: string)
    requires k < |Candidates(cells)|
    requires forall j, email | j != k :: failing(j, email) == lookup(j, email)
    requires failing(k, Candidates(cells)[k]) == RequestFailure(detail)
    ensures |Report(cells, failing)| == |Report(cells, lookup)|
    ensures Report(cells, failing)[k] == Entry(Candidates(cells)[k], ApiError(detail), List([]))
    ensures forall j | 0 <= j < |Report(cells, lookup)| && j != k ::
      Report(cells, failing)[j] == Report(cells, lookup)[j]
  {
    ReportAt(cells, lookup);
    ReportAt(cells, failing);
  }

  /** Position `2j` of the trace is the lookup of candidate `j` and position
      `2j + 1` the pause after it. */
  lemma {:induction false} CallTraceAt(candidates: seq<string>)
    ensures |CallTrace(candidates)| == 2 * |candidates|
    ensures forall j | 0 <= j < |candidates| ::
      CallTrace(candidates)[2 * j] == Query(candidates[j]) && CallTrace(candidates)[2 * j + 1] == Sleep
    decreases |candidates|
  {
    if candidates != [] {
      CallTraceAt(candidates[..|candidates| - 1]);
    }
  }

  /** Exactly one pause per looked-up email. */
  lemma {:induction false} SleepsPerCandidate(candidates: seq<string>)
    ensures Sleeps(CallTrace(candidates)) == |candidates|
    decreases |candidates|
  {
    if candidates != [] {
      var init := candidates[..|candidates| - 1];
      var t := CallTrace(init) + [Query(candidates[|candidates| - 1])];
      SleepsPerCandidate(init);
      assert CallTrace(candidates) == t + [Sleep];
      assert (t + [Sleep])[..|t|] == t;
      assert t[..|t| - 1] == CallTrace(init);
      assert Sleeps(t) == Sleeps(CallTrace(init));
    }
  }

  /** A batch with at least one email starts with a lookup, not a pause. */
  lemma FirstEventIsLookup(candidates: seq<string>)
    requires candidates != []
    ensures CallTrace(candidates)[0] == Query(candidates[0])
  {
  }

  /** Between any two lookups there is a pause. */
  lemma LookupsSeparated(candidates: seq<string>, p: nat, q: nat)
    requires p < q < |CallTrace(candidates)|
    requires CallTrace(candidates)[p].Query? && CallTrace(candidates)[q].Query?
    ensures exists m | p < m < q :: CallTrace(candidates)[m] == Sleep
  {
    var t := CallTrace(candidates);
    CallTraceAt(candidates);
    assert t[2 * (p / 2) + 1] == Sleep;
  }

  /** What one more cell does to the candidates, the report and the events. */
  lemma CellStep(cells: seq<string>, i: nat, lookup: Lookup)
    requires i < |cells|
    ensures var email := Strip(cells[i]);
      var done := Report(cells[..i], lookup);
      if email == "" then
        Candidates(cells[..i + 1]) == Candidates(cells[..i]) && Report(cells[..i + 1], lookup) == done
      else
        Candidates(cells[..i + 1]) == Candidates(cells[..i]) + [email] &&
        Report(cells[..i + 1], lookup) == done + [EntryFor(email, lookup(|done|, email))]
  {
    assert cells[..i + 1][..i] == cells[..i];
  }

  /** The loop of lines 68-132: for each cell, strip it, skip it when blank,
      otherwise look it up, append exactly one entry whatever the outcome,
      and pause. */
  method RunBatch(cells: seq<string>, lookup: Lookup) returns (results: seq<Entry>, events: seq<Event>)
    ensures results == Report(cells, lookup)
    ensures events == CallTrace(Candidates(cells))
  {
    results, events := [], [];
    var i := 0;
    while i < |cells|
      invariant 0 <= i <= |cells|
      invariant results == Report(cells[..i], lookup)
      invariant events == CallTrace(Candidates(cells[..i]))
    {
      CellStep(cells, i, lookup);
      var email := Strip(cells[i]);
      if email != "" {
        CallTraceSnoc(Candidates(cells[..i]), email);
        var outcome := lookup(|results|, email);
        results := results + [EntryFor(email, outcome)];
        events := events + [Query(email), Sleep];
      }
      i := i + 1;
    }
    assert cells[..|cells|] == cells;
  }

  /** An uploaded file: its name and what decoding it as UTF-8 and reading
      it with `pandas.read_csv(..., header=None)` gave. */
  datatype Upload = Upload(filename: string, csv: CsvRead)

  /** The result of reading the upload: an exception (bad UTF-8, a parser
      error, an empty file), a frame without a column 0, or column 0
      converted to strings. */
  datatype CsvRead = ReadRaised(detail: string) | NoFirstColumn | FirstColumn(cells: seq<string>)

  /** A request to `/api`; a POST may or may not carry a `csv_file`. */
  datatype Request = Get | Post(csvFile: Option<Upload>)

  const InvalidUploadMessage := "Please upload a valid CSV file."
  const NoColumnMessage := "CSV file is empty or formatted incorrectly (expected emails in the first column)."
  const ReadErrorPrefix := "Error reading CSV file: "

  /** A file is accepted when one was sent and its name ends in `.csv`,
      case-sensitively. */
  predicate IsCsvUpload(file: Option<Upload>): (b: bool)
    ensures b ==> file.Some? && |file.value.filename| >= 4
    ensures file.Some? && |file.value.filename| >= 4 ==>
      (b <==> file.value.filename[|file.value.filename| - 4..] == ".csv")
  {
    file.Some? && EndsWith(file.value.filename, ".csv")
  }

  /** The whole handler, up to the values it passes to the template. */
  method ApiPage(request: Request, lookup: Lookup) returns (results: seq<Entry>, error: Option<string>, events: seq<Event>)
    // a GET shows an empty page and does no lookups
    ensures request.Get? ==> results == [] && error == None && events == []
    // a missing file or a name not ending in ".csv" is refused
    ensures request.Post? && !IsCsvUpload(request.csvFile) ==>
      results == [] && error == Some(InvalidUploadMessage) && events == []
    // a file that cannot be read stops everything before any lookup
    ensures request.Post? && IsCsvUpload(request.csvFile) && !request.csvFile.value.csv.FirstColumn? ==>
      results == [] && events == [] &&
      error == Some(match request.csvFile.value.csv
                    case ReadRaised(detail) => ReadErrorPrefix + detail
                    case _ => NoColumnMessage)
    // otherwise the batch runs to the end: one entry per non-blank cell
    ensures request.Post? && IsCsvUpload(request.csvFile) && request.csvFile.value.csv.FirstColumn? ==>
      var cells := request.csvFile.value.csv.cells;
      error == None && results == Report(cells, lookup) && events == CallTrace(Candidates(cells))
  {
    results, error, events := [], None, [];
    if request.Post? {
      var uploaded := request.csvFile;
      if uploaded.Some? && EndsWith(uploaded.value.filename, ".csv") {
        var cells: seq<string> := [];
        var csv := uploaded.value.csv;
        if csv.FirstColumn? {
          cells := csv.cells;
        } else if csv.NoFirstColumn? {
          error := Some(NoColumnMessage);
        } else {
          error := Some(ReadErrorPrefix + csv.detail);
        }
        if error.None? {
          results, events := RunBatch(cells, lookup);
        }
      } else {
        error := Some(InvalidUploadMessage);
      }
    }
  }
}

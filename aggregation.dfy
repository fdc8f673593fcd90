/**
 * The coordinator of download_assemblies.py `main`: it submits one task per
 * input line, then consumes the finished tasks one at a time, in whatever
 * order they complete, and does all writing itself. A study or a sample is
 * written (its own file plus a summary row) only the first time its accession
 * is seen; every analysis gets a row and every error line is appended.
 *
 * Files are values: a per-entity directory is a map from accession to the
 * content of that accession's file (each is written with mode 'w'; its path,
 * `StudyPath` or `SamplePath` of the accession, determines the accession); a
 * shared summary file is the sequence of chunks appended to it.
 */
module Aggregation {
  import opened Wrappers
  import opened Strings
  import opened Records
  import opened Cleaning
  import opened Rows
  import opened DownloadOptions
  import opened FetchTask

  function StudyKey(st: Study): string { st.accession }
  function SampleKey(sa: Sample): string { sa.accession }

  /** The keys of the elements of `xs`. */
  function Keys<T>(xs: seq<T>, key: T -> string): set<string>
  {
    set i | 0 <= i < |xs| :: key(xs[i])
  }

  ghost predicate DistinctKeys<T>(xs: seq<T>, key: T -> string)
  {
    forall i, j :: 0 <= i < j < |xs| ==> key(xs[i]) != key(xs[j])
  }

  /**
   * The elements of `xs` that a first-writer-wins loop writes when the keys in
   * `seen` were written before: each element whose key is new, in order.
   */
  function FirstSeen<T>(xs: seq<T>, key: T -> string, seen: set<string>): seq<T>
    decreases |xs|
  {
    if |xs| == 0 then []
    else if key(xs[0]) in seen then FirstSeen(xs[1..], key, seen)
    else [xs[0]] + FirstSeen(xs[1..], key, seen + {key(xs[0])})
  }

  /** The projections of a task result onto its four lists. */
  function StudiesOf(r: TaskResult): seq<Study> { r.studies }
  function SamplesOf(r: TaskResult): seq<Sample> { r.samples }
  function AnalysesOf(r: TaskResult): seq<Analysis> { r.analyses }
  function ErrorsOf(r: TaskResult): seq<string> { r.errors }

  /** One list of every result, concatenated in the order the results were consumed. */
  function Gather<T>(rs: seq<TaskResult>, f: TaskResult -> seq<T>): seq<T>
  {
    Flatten(MapSeq(rs, f))
  }

  /** The results the loop consumes: those before the first future that re-raises. */
  function Processed(cs: seq<TaskOutcome>): seq<TaskResult>
  {
    if |cs| == 0 || cs[0].Raised? then [] else [cs[0].data] + Processed(cs[1..])
  }

  /** The content of a sample's metadata file. */
  function MetadataFile(unescape: string -> string): Sample -> string
  {
    (sa: Sample) => Terminated(MetadataLines(sa.metadata, unescape), '\n')
  }

  /** Writing an element whose key is not yet in the trace keeps the output deduplicated. */
  lemma DeduplicatedStep<T>(written: seq<T>, key: T -> string, content: T -> string, row: T -> string, out: Output, x: T)
    requires Deduplicated(written, key, content, row, out)
    requires key(x) !in out.trace
    ensures Deduplicated(written + [x], key, content, row,
                         Output(out.trace + {key(x)}, out.files[key(x) := content(x)], out.summary + [row(x)]))
  {
    KeysSnoc(written, x, key);
    SnocDistinct(written, x, key);
    MapSeqSnoc(written, x, row);
    forall i | 0 <= i < |written| ensures key(written[i]) != key(x) {
      assert key(written[i]) in Keys(written, key);
    }
    var ws := written + [x];
    forall i | 0 <= i < |ws| ensures key(ws[i]) in out.files[key(x) := content(x)] {
      if i < |written| {
        assert ws[i] == written[i];
      }
    }
  }

  /**
   * One iteration of a first-writer-wins loop over `xs` that started from the
   * output with trace `trace0` after `written0`: skipping an element whose key is
   * in the trace, or writing one whose key is not, keeps the loop invariant.
   */
  lemma ConsumeStep<T>(xs: seq<T>, i: nat, key: T -> string, content: T -> string, row: T -> string,
                       trace0: set<string>, written0: seq<T>, written: seq<T>, out: Output)
    requires i < |xs|
    requires Deduplicated(written, key, content, row, out)
    requires out.trace == trace0 + Keys(xs[..i], key)
    requires written == written0 + FirstSeen(xs[..i], key, trace0)
    ensures key(xs[i]) in out.trace ==>
      && out.trace == trace0 + Keys(xs[..i + 1], key)
      && written == written0 + FirstSeen(xs[..i + 1], key, trace0)
    ensures key(xs[i]) !in out.trace ==>
      && Deduplicated(written + [xs[i]], key, content, row,
                      Output(out.trace + {key(xs[i])}, out.files[key(xs[i]) := content(xs[i])], out.summary + [row(xs[i])]))
      && out.trace + {key(xs[i])} == trace0 + Keys(xs[..i + 1], key)
      && written + [xs[i]] == written0 + FirstSeen(xs[..i + 1], key, trace0)
  {
    FirstSeenStep(xs, i, key, trace0);
    if key(xs[i]) !in out.trace {
      DeduplicatedStep(written, key, content, row, out, xs[i]);
    }
  }

  /** The worker task outcomes for the input lines, in submission order. */
  function Outcomes(lines: seq<string>, fetch: string -> FetchResult, labels: set<string>, retrieve: Artifact -> bool): seq<TaskOutcome>
  {
    seq(|lines|, i requires 0 <= i < |lines| =>
      TaskSpec(InputAccession(lines[i]), fetch(InputAccession(lines[i])), labels, retrieve))
  }

  /** The submission loop: one `download_files` task per input line. */
  method SubmitTasks(lines: seq<string>, fetch: string -> FetchResult, labels: set<string>, retrieve: Artifact -> bool)
    returns (futures: seq<TaskOutcome>)
    ensures futures == Outcomes(lines, fetch, labels, retrieve)
  {
    futures := [];
    var i := 0;
    while i < |lines|
      invariant 0 <= i <= |lines|
      invariant futures == Outcomes(lines[..i], fetch, labels, retrieve)
    {
      var task := InputAccession(lines[i]);
      var outcome, _ := DownloadFiles(task, fetch(task), labels, retrieve);
      futures := futures + [outcome];
      i := i + 1;
    }
    assert lines[..i] == lines;
  }

  /**
   * One first-writer-wins output of `main`: the accessions written so far (its
   * trace), the per-entity directory keyed by accession (the file of study `a`
   * is `StudyPath(a)`, that of sample `a` is `SamplePath(a)`, both injective),
   * and the chunks appended to the summary file.
   */
  datatype Output = Output(trace: set<string>, files: map<string, string>, summary: seq<string>)

  /** Everything `main` writes: studies, samples, the analyses file and the error file. */
  datatype Outputs = Outputs(studies: Output, samples: Output, analysesFile: seq<string>, errorFile: seq<string>)

  /**
   * The state of one output after writing `written`: no key is written twice,
   * the trace is exactly the written keys, each written key has its own file
   * with its content, and the summary holds one row per written element after
   * its header chunk.
   */
  ghost predicate Deduplicated<T>(written: seq<T>, key: T -> string, content: T -> string, row: T -> string, out: Output)
  {
    && DistinctKeys(written, key)
    && Keys(written, key) == out.trace
    && out.files.Keys == out.trace
    && (forall i :: 0 <= i < |written| ==> key(written[i]) in out.files && out.files[key(written[i])] == content(written[i]))
    && Summarises(out.summary, written, row)
  }

  /** A summary file holding a header chunk, then one row per element of `xs`. */
  ghost predicate Summarises<T>(file: seq<string>, xs: seq<T>, row: T -> string)
  {
    |file| > 0 && file == [file[0]] + MapSeq(xs, row)
  }

  /** The outputs after writing the studies `ws`, the samples `ss` and the analyses `as_`. */
  ghost predicate Valid(o: Outputs, unescape: string -> string, ws: seq<Study>, ss: seq<Sample>, as_: seq<Analysis>)
  {
    && Deduplicated(ws, StudyKey, NameAndAbstract, StudiesRow, o.studies)
    && Deduplicated(ss, SampleKey, MetadataFile(unescape), SamplesRow, o.samples)
    && Summarises(o.analysesFile, as_, AnalysesRow)
  }

  /** The first chunk of each summary file (its header, once opened). */
  function FirstChunks(o: Outputs): seq<string>
  {
    (if |o.studies.summary| > 0 then [o.studies.summary[0]] else [])
    + (if |o.samples.summary| > 0 then [o.samples.summary[0]] else [])
    + (if |o.analysesFile| > 0 then [o.analysesFile[0]] else [])
  }

  /** The headers each summary file starts with. */
  ghost predicate Headed(o: Outputs)
  {
    FirstChunks(o) == [StudiesHeader, SamplesHeader, AnalysesHeader]
  }

  /** Opening the four shared files with mode 'w' and writing the headers; both traces start empty. */
  method OpenOutputs(ghost unescape: string -> string) returns (o: Outputs)
    ensures Reflects(o, unescape, []) && Headed(o)
  {
    o := Opened(StudiesHeader, SamplesHeader, AnalysesHeader);
    OpenedReflects(StudiesHeader, SamplesHeader, AnalysesHeader, unescape);
  }

  /** Three summary files holding only their headers, and an empty errors file. */
  function Opened(studiesHeader: string, samplesHeader: string, analysesHeader: string): Outputs
  {
    Outputs(Output({}, map[], [studiesHeader]), Output({}, map[], [samplesHeader]), [analysesHeader], [])
  }

  lemma OpenedReflects(studiesHeader: string, samplesHeader: string, analysesHeader: string, unescape: string -> string)
    ensures Reflects(Opened(studiesHeader, samplesHeader, analysesHeader), unescape, [])
    ensures FirstChunks(Opened(studiesHeader, samplesHeader, analysesHeader)) == [studiesHeader, samplesHeader, analysesHeader]
  {
  }

  /** The `for study in out_data["study"]` loop. */
  method ConsumeStudies(out: Output, ghost written: seq<Study>, studies: seq<Study>) returns (out': Output)
    requires Deduplicated(written, StudyKey, NameAndAbstract, StudiesRow, out)
    ensures Deduplicated(written + FirstSeen(studies, StudyKey, out.trace), StudyKey, NameAndAbstract, StudiesRow, out')
    ensures out'.trace == out.trace + Keys(studies, StudyKey)
    ensures out'.summary[0] == out.summary[0]
  {
    out' := out;
    ghost var w := written;
    var i := 0;
    while i < |studies|
      invariant 0 <= i <= |studies|
      invariant Deduplicated(w, StudyKey, NameAndAbstract, StudiesRow, out') && out'.summary[0] == out.summary[0]
      invariant out'.trace == out.trace + Keys(studies[..i], StudyKey)
      invariant w == written + FirstSeen(studies[..i], StudyKey, out.trace)
    {
      var study := studies[i];
      ConsumeStep(studies, i, StudyKey, NameAndAbstract, StudiesRow, out.trace, written, w, out');
      if study.accession !in out'.trace {
        // write_study_name_and_abstract, then a scoped append of the summary row
        out' := Output(out'.trace + {study.accession},
                       out'.files[study.accession := NameAndAbstract(study)],
                       out'.summary + [StudiesRow(study)]);
        w := w + [study];
      }
      i := i + 1;
    }
    assert studies[..i] == studies;
  }

  /** The `for sample in out_data["sample"]` loop. */
  method ConsumeSamples(out: Output, ghost written: seq<Sample>, samples: seq<Sample>, unescape: string -> string)
    returns (out': Output)
    requires Deduplicated(written, SampleKey, MetadataFile(unescape), SamplesRow, out)
    ensures Deduplicated(written + FirstSeen(samples, SampleKey, out.trace), SampleKey, MetadataFile(unescape), SamplesRow, out')
    ensures out'.trace == out.trace + Keys(samples, SampleKey)
    ensures out'.summary[0] == out.summary[0]
  {
    out' := out;
    ghost var w := written;
    var i := 0;
    while i < |samples|
      invariant 0 <= i <= |samples|
      invariant Deduplicated(w, SampleKey, MetadataFile(unescape), SamplesRow, out') && out'.summary[0] == out.summary[0]
      invariant out'.trace == out.trace + Keys(samples[..i], SampleKey)
      invariant w == written + FirstSeen(samples[..i], SampleKey, out.trace)
    {
      var sample := samples[i];
      ConsumeStep(samples, i, SampleKey, MetadataFile(unescape), SamplesRow, out.trace, written, w, out');
      if sample.accession !in out'.trace {
        var text := WriteSampleMetadata(sample, unescape);
        // the evident intent of the `open(samples_file, 'a') as samples_fh:` line: a scoped append
        out' := Output(out'.trace + {sample.accession},
                       out'.files[sample.accession := text],
                       out'.summary + [SamplesRow(sample)]);
        w := w + [sample];
      }
      i := i + 1;
    }
    assert samples[..i] == samples;
  }

  /** The `for analysis in out_data["analysis"]` loop: one row each, no deduplication. */
  method ConsumeAnalyses(file: seq<string>, analyses: seq<Analysis>) returns (file': seq<string>)
    ensures file' == file + MapSeq(analyses, AnalysesRow)
  {
    file' := file;
    var i := 0;
    while i < |analyses|
      invariant 0 <= i <= |analyses|
      invariant file' == file + MapSeq(analyses[..i], AnalysesRow)
    {
      MapSeqSnoc(analyses[..i], analyses[i], AnalysesRow);
      assert analyses[..i + 1] == analyses[..i] + [analyses[i]];
      file' := file' + [AnalysesRow(analyses[i])];
      i := i + 1;
    }
    assert analyses[..i] == analyses;
  }

  /** The `for errors in out_data["errors"]` loop: every line appended verbatim. */
  method ConsumeErrors(file: seq<string>, errors: seq<string>) returns (file': seq<string>)
    ensures file' == file + errors
  {
    file' := file;
    var i := 0;
    while i < |errors|
      invariant 0 <= i <= |errors|
      invariant file' == file + errors[..i]
    {
      assert errors[..i + 1] == errors[..i] + [errors[i]];
      file' := file' + [errors[i]];
      i := i + 1;
    }
    assert errors[..i] == errors;
  }

  /** Handling one `out_data`: studies, then samples, then analyses, then errors. */
  method Consume(o: Outputs, unescape: string -> string, ghost ws: seq<Study>, ghost ss: seq<Sample>,
                 ghost as_: seq<Analysis>, data: TaskResult) returns (o': Outputs)
    requires Valid(o, unescape, ws, ss, as_)
    ensures Valid(o', unescape, ws + FirstSeen(data.studies, StudyKey, o.studies.trace),
                  ss + FirstSeen(data.samples, SampleKey, o.samples.trace), as_ + data.analyses)
    ensures o'.studies.summary[0] == o.studies.summary[0] && o'.samples.summary[0] == o.samples.summary[0]
    ensures o'.analysesFile[0] == o.analysesFile[0]
    ensures o'.studies.trace == o.studies.trace + Keys(data.studies, StudyKey)
    ensures o'.samples.trace == o.samples.trace + Keys(data.samples, SampleKey)
    ensures o'.analysesFile == o.analysesFile + MapSeq(data.analyses, AnalysesRow)
    ensures o'.errorFile == o.errorFile + data.errors
  {
    var studies := ConsumeStudies(o.studies, ws, data.studies);
    var samples := ConsumeSamples(o.samples, ss, data.samples, unescape);
    var analysesFile := ConsumeAnalyses(o.analysesFile, data.analyses);
    var errorFile := ConsumeErrors(o.errorFile, data.errors);
    o' := Outputs(studies, samples, analysesFile, errorFile);
    SummarisesAppend(o.analysesFile, as_, data.analyses, AnalysesRow);
  }

  /**
   * The outputs hold exactly what the results `done`, consumed in this order,
   * add to freshly opened files: the first study and sample of each accession,
   * every analysis row and every error line.
   */
  ghost predicate Reflects(o: Outputs, unescape: string -> string, done: seq<TaskResult>)
  {
    && Valid(o, unescape, FirstSeen(Gather(done, StudiesOf), StudyKey, {}),
             FirstSeen(Gather(done, SamplesOf), SampleKey, {}), Gather(done, AnalysesOf))
    && o.studies.trace == Keys(Gather(done, StudiesOf), StudyKey)
    && o.samples.trace == Keys(Gather(done, SamplesOf), SampleKey)
    && o.errorFile == Gather(done, ErrorsOf)
  }

  /**
   * What the outputs and the written sequences amount to after consuming the
   * results `done`, in this order: the first study and sample of each accession,
   * every analysis and every error line.
   */
  ghost predicate Accounts(o: Outputs, done: seq<TaskResult>, ws: seq<Study>, ss: seq<Sample>, as_: seq<Analysis>)
  {
    && ws == FirstSeen(Gather(done, StudiesOf), StudyKey, {})
    && ss == FirstSeen(Gather(done, SamplesOf), SampleKey, {})
    && as_ == Gather(done, AnalysesOf)
    && o.studies.trace == Keys(Gather(done, StudiesOf), StudyKey)
    && o.samples.trace == Keys(Gather(done, SamplesOf), SampleKey)
    && o.errorFile == Gather(done, ErrorsOf)
  }

  /**
   * The invariant of the loop over the futures after `i` of them, starting from
   * the outputs `o0`: none of the first `i` re-raised, the outputs are valid for
   * the written sequences, which account for the results consumed so far, and
   * the headers are untouched.
   */
  ghost predicate DrainInv(o0: Outputs, o: Outputs, unescape: string -> string, completed: seq<TaskOutcome>, i: nat,
                           ws: seq<Study>, ss: seq<Sample>, as_: seq<Analysis>)
    requires i <= |completed|
  {
    && (forall j :: 0 <= j < i ==> completed[j].Completed?)
    && Valid(o, unescape, ws, ss, as_)
    && FirstChunks(o) == FirstChunks(o0)
    && Accounts(o, Processed(completed[..i]), ws, ss, as_)
  }

  /**
   * The `for future in as_completed(futures)` loop over the futures in completion
   * order. A future that re-raises ends the loop, and `main`, with it.
   */
  method Drain(o: Outputs, unescape: string -> string, completed: seq<TaskOutcome>) returns (o': Outputs, raised: bool)
    requires Reflects(o, unescape, [])
    ensures raised <==> exists i :: 0 <= i < |completed| && completed[i].Raised?
    ensures Reflects(o', unescape, Processed(completed))
    ensures FirstChunks(o') == FirstChunks(o)
  {
    o' := o;
    raised := false;
    ghost var ws: seq<Study>, ss: seq<Sample>, as_: seq<Analysis> := [], [], [];
    DrainStarts(o, unescape, completed);
    var i := 0;
    while i < |completed|
      invariant 0 <= i <= |completed|
      invariant DrainInv(o, o', unescape, completed, i, ws, ss, as_)
    {
      var outcome := completed[i];
      if outcome.Raised? {
        DrainStops(o, o', unescape, completed, i, ws, ss, as_);
        raised := true;
        return;
      }
      var o2 := Consume(o', unescape, ws, ss, as_, outcome.data);
      DrainStep(o, o', o2, unescape, completed, i, ws, ss, as_);
      ws, ss, as_ := ws + FirstSeen(outcome.data.studies, StudyKey, o'.studies.trace),
                     ss + FirstSeen(outcome.data.samples, SampleKey, o'.samples.trace),
                     as_ + outcome.data.analyses;
      o' := o2;
      i := i + 1;
    }
    DrainEnds(o, o', unescape, completed, ws, ss, as_);
  }

  lemma DrainStarts(o: Outputs, unescape: string -> string, completed: seq<TaskOutcome>)
    requires Reflects(o, unescape, [])
    ensures DrainInv(o, o, unescape, completed, 0, [], [], [])
  {
    assert completed[..0] == [];
    assert Gather([], StudiesOf) == [] && Gather([], SamplesOf) == [];
  }

  /** Consuming the next completed future keeps the invariant, given what `Consume` promises. */
  lemma DrainStep(o0: Outputs, o: Outputs, o2: Outputs, unescape: string -> string, completed: seq<TaskOutcome>, i: nat,
                  ws: seq<Study>, ss: seq<Sample>, as_: seq<Analysis>)
    requires i < |completed| && completed[i].Completed?
    requires DrainInv(o0, o, unescape, completed, i, ws, ss, as_)
    requires var d := completed[i].data;
      && Valid(o2, unescape, ws + FirstSeen(d.studies, StudyKey, o.studies.trace),
               ss + FirstSeen(d.samples, SampleKey, o.samples.trace), as_ + d.analyses)
      && o2.studies.summary[0] == o.studies.summary[0] && o2.samples.summary[0] == o.samples.summary[0]
      && o2.analysesFile[0] == o.analysesFile[0]
      && o2.studies.trace == o.studies.trace + Keys(d.studies, StudyKey)
      && o2.samples.trace == o.samples.trace + Keys(d.samples, SampleKey)
      && o2.errorFile == o.errorFile + d.errors
    ensures var d := completed[i].data;
      DrainInv(o0, o2, unescape, completed, i + 1,
               ws + FirstSeen(d.studies, StudyKey, o.studies.trace),
               ss + FirstSeen(d.samples, SampleKey, o.samples.trace),
               as_ + d.analyses)
  {
    var done := Processed(completed[..i]);
    var d := completed[i].data;
    ProcessedSnoc(completed, i);
    GatherSnocFirstSeen(done, d, StudiesOf, StudyKey);
    GatherSnocFirstSeen(done, d, SamplesOf, SampleKey);
    GatherSnoc(done, d, AnalysesOf);
    GatherSnoc(done, d, ErrorsOf);
  }

  /** A future that re-raises ends the loop with the outputs of the results before it. */
  lemma DrainStops(o0: Outputs, o: Outputs, unescape: string -> string, completed: seq<TaskOutcome>, i: nat,
                   ws: seq<Study>, ss: seq<Sample>, as_: seq<Analysis>)
    requires i < |completed| && completed[i].Raised?
    requires DrainInv(o0, o, unescape, completed, i, ws, ss, as_)
    ensures Reflects(o, unescape, Processed(completed)) && FirstChunks(o) == FirstChunks(o0)
    ensures exists j :: 0 <= j < |completed| && completed[j].Raised?
  {
    ProcessedStops(completed, i);
  }

  /** When no future re-raises, the loop ends with the outputs of every result. */
  lemma DrainEnds(o0: Outputs, o: Outputs, unescape: string -> string, completed: seq<TaskOutcome>,
                  ws: seq<Study>, ss: seq<Sample>, as_: seq<Analysis>)
    requires DrainInv(o0, o, unescape, completed, |completed|, ws, ss, as_)
    ensures Reflects(o, unescape, Processed(completed)) && FirstChunks(o) == FirstChunks(o0)
    ensures !exists j :: 0 <= j < |completed| && completed[j].Raised?
  {
    assert completed[..|completed|] == completed;
    assert Processed(completed[..|completed|]) == Processed(completed);
  }

  /**
   * `main` for the fetcher: build the selected label set, create the output
   * files, submit one task per input line and consume the finished tasks in
   * `completed`, their completion order (any order of the submitted tasks).
   * An undefined code or a missing `-d` stops `main` before any file is created.
   * Each element of `lines` is a line as `for line in f` yields it, with its
   * trailing '\n': a line without a comma submits the accession and the newline.
   */
  method RunFetcher(lines: seq<string>, codes: Option<seq<int>>, fetch: string -> FetchResult,
                    retrieve: Artifact -> bool, unescape: string -> string, completed: seq<TaskOutcome>)
    returns (r: Result<Outputs, SelectError>, raised: bool)
    requires SelectLabels(codes).Success? ==>
      multiset(completed) == multiset(Outcomes(lines, fetch, SelectLabels(codes).value, retrieve))
    ensures r.Failure? <==> SelectLabels(codes).Failure?
    ensures r.Failure? ==> r.error == SelectLabels(codes).error && !raised
    ensures r.Success? ==> Reflects(r.value, unescape, Processed(completed)) && Headed(r.value)
    ensures r.Success? ==> (raised <==> exists i :: 0 <= i < |completed| && completed[i].Raised?)
  {
    var selection := SelectLabels(codes);
    if selection.Failure? {
      return Failure(selection.error), false;
    }
    var labels := selection.value;
    var o := OpenOutputs(unescape);
    var futures := SubmitTasks(lines, fetch, labels, retrieve);
    assert multiset(completed) == multiset(futures);
    var o';
    o', raised := Drain(o, unescape, completed);
    r := Success(o');
  }

  // ---------------------------------------------------------------------
  // Lemmas used by the loops

  lemma KeysSnoc<T>(xs: seq<T>, x: T, key: T -> string)
    ensures Keys(xs + [x], key) == Keys(xs, key) + {key(x)}
  {
    var ys := xs + [x];
    forall k | k in Keys(ys, key) ensures k in Keys(xs, key) + {key(x)} {
      var i :| 0 <= i < |ys| && key(ys[i]) == k;
      if i < |xs| {
        assert key(xs[i]) == k;
      }
    }
    forall k | k in Keys(xs, key) ensures k in Keys(ys, key) {
      var i :| 0 <= i < |xs| && key(xs[i]) == k;
      assert key(ys[i]) == k;
    }
    assert key(ys[|xs|]) == key(x);
  }

  lemma KeysCons<T>(xs: seq<T>, key: T -> string)
    requires |xs| > 0
    ensures Keys(xs, key) == {key(xs[0])} + Keys(xs[1..], key)
  {
    forall k | k in Keys(xs, key) ensures k in {key(xs[0])} + Keys(xs[1..], key) {
      var i :| 0 <= i < |xs| && key(xs[i]) == k;
      if i > 0 {
        assert key(xs[1..][i - 1]) == k;
      }
    }
    forall k | k in Keys(xs[1..], key) ensures k in Keys(xs, key) {
      var i :| 0 <= i < |xs[1..]| && key(xs[1..][i]) == k;
      assert key(xs[i + 1]) == k;
    }
  }

  lemma KeysAppend<T>(xs: seq<T>, ys: seq<T>, key: T -> string)
    ensures Keys(xs + ys, key) == Keys(xs, key) + Keys(ys, key)
  {
    var zs := xs + ys;
    forall k | k in Keys(zs, key) ensures k in Keys(xs, key) + Keys(ys, key) {
      var i :| 0 <= i < |zs| && key(zs[i]) == k;
      if i < |xs| {
        assert key(xs[i]) == k;
      } else {
        assert key(ys[i - |xs|]) == k;
      }
    }
    forall k | k in Keys(xs, key) ensures k in Keys(zs, key) {
      var i :| 0 <= i < |xs| && key(xs[i]) == k;
      assert key(zs[i]) == k;
    }
    forall k | k in Keys(ys, key) ensures k in Keys(zs, key) {
      var i :| 0 <= i < |ys| && key(ys[i]) == k;
      assert key(zs[i + |xs|]) == k;
    }
  }

  lemma SnocDistinct<T>(xs: seq<T>, x: T, key: T -> string)
    requires DistinctKeys(xs, key) && key(x) !in Keys(xs, key)
    ensures DistinctKeys(xs + [x], key)
  {
    var ys := xs + [x];
    forall i, j | 0 <= i < j < |ys| ensures key(ys[i]) != key(ys[j]) {
      if j == |xs| {
        assert key(ys[i]) == key(xs[i]) && key(xs[i]) in Keys(xs, key);
      } else {
        assert ys[i] == xs[i] && ys[j] == xs[j];
      }
    }
  }

  lemma SummarisesAppend<T>(file: seq<string>, xs: seq<T>, ys: seq<T>, row: T -> string)
    requires Summarises(file, xs, row)
    ensures Summarises(file + MapSeq(ys, row), xs + ys, row) && (file + MapSeq(ys, row))[0] == file[0]
  {
    MapSeqAppend(xs, ys, row);
  }

  lemma GatherSnoc<T>(rs: seq<TaskResult>, r: TaskResult, f: TaskResult -> seq<T>)
    ensures Gather(rs + [r], f) == Gather(rs, f) + f(r)
  {
    MapSeqSnoc(rs, r, f);
    assert MapSeq(rs + [r], f)[..|rs|] == MapSeq(rs, f);
  }

  /** Consuming one more result extends what was written by what that result adds. */
  lemma GatherSnocFirstSeen<T>(rs: seq<TaskResult>, r: TaskResult, f: TaskResult -> seq<T>, key: T -> string)
    ensures FirstSeen(Gather(rs + [r], f), key, {})
            == FirstSeen(Gather(rs, f), key, {}) + FirstSeen(f(r), key, Keys(Gather(rs, f), key))
    ensures Keys(Gather(rs + [r], f), key) == Keys(Gather(rs, f), key) + Keys(f(r), key)
  {
    GatherSnoc(rs, r, f);
    FirstSeenAppend(Gather(rs, f), f(r), key, {});
    assert {} + Keys(Gather(rs, f), key) == Keys(Gather(rs, f), key);
    KeysAppend(Gather(rs, f), f(r), key);
  }

  lemma {:induction false} ProcessedAppend(p: seq<TaskOutcome>, q: seq<TaskOutcome>)
    requires forall j :: 0 <= j < |p| ==> p[j].Completed?
    ensures Processed(p + q) == Processed(p) + Processed(q)
    decreases |p|
  {
    if |p| == 0 {
      assert p + q == q;
    } else {
      ProcessedAppend(p[1..], q);
      assert (p + q)[1..] == p[1..] + q;
    }
  }

  lemma ProcessedSnoc(cs: seq<TaskOutcome>, i: nat)
    requires i < |cs| && cs[i].Completed?
    requires forall j :: 0 <= j < i ==> cs[j].Completed?
    ensures Processed(cs[..i + 1]) == Processed(cs[..i]) + [cs[i].data]
  {
    assert cs[..i + 1] == cs[..i] + [cs[i]];
    ProcessedAppend(cs[..i], [cs[i]]);
    assert Processed([cs[i]]) == [cs[i].data] by {
      assert [cs[i]][1..] == [];
    }
  }

  lemma ProcessedStops(cs: seq<TaskOutcome>, i: nat)
    requires i < |cs| && cs[i].Raised?
    requires forall j :: 0 <= j < i ==> cs[j].Completed?
    ensures Processed(cs) == Processed(cs[..i])
  {
    assert cs == cs[..i] + cs[i..];
    ProcessedAppend(cs[..i], cs[i..]);
  }

  // ---------------------------------------------------------------------
  // First-writer-wins

  /**
   * What a first-writer-wins loop writes: no key twice, none of the keys seen
   * before, and every new key of the input, each through an element of the input.
   */
  lemma {:induction false} FirstSeenSpec<T>(xs: seq<T>, key: T -> string, seen: set<string>)
    ensures DistinctKeys(FirstSeen(xs, key, seen), key)
    ensures Keys(FirstSeen(xs, key, seen), key) == Keys(xs, key) - seen
    ensures forall y :: y in FirstSeen(xs, key, seen) ==> y in xs
    decreases |xs|
  {
    if |xs| > 0 {
      var k := key(xs[0]);
      KeysCons(xs, key);
      if k in seen {
        FirstSeenSpec(xs[1..], key, seen);
      } else {
        var rest := FirstSeen(xs[1..], key, seen + {k});
        FirstSeenSpec(xs[1..], key, seen + {k});
        var r := [xs[0]] + rest;
        KeysCons(r, key);
        assert r[1..] == rest;
        forall i, j | 0 <= i < j < |r| ensures key(r[i]) != key(r[j]) {
          if i == 0 {
            assert key(r[j]) == key(rest[j - 1]) && key(rest[j - 1]) in Keys(rest, key);
          } else {
            assert r[i] == rest[i - 1] && r[j] == rest[j - 1];
          }
        }
      }
    }
  }

  /** One iteration of a first-writer-wins loop over `xs`, at index `i`. */
  lemma FirstSeenStep<T>(xs: seq<T>, i: nat, key: T -> string, seen: set<string>)
    requires i < |xs|
    ensures key(xs[i]) in seen + Keys(xs[..i], key) ==>
      FirstSeen(xs[..i + 1], key, seen) == FirstSeen(xs[..i], key, seen)
    ensures key(xs[i]) !in seen + Keys(xs[..i], key) ==>
      FirstSeen(xs[..i + 1], key, seen) == FirstSeen(xs[..i], key, seen) + [xs[i]]
    ensures Keys(xs[..i + 1], key) == Keys(xs[..i], key) + {key(xs[i])}
  {
    assert xs[..i + 1] == xs[..i] + [xs[i]];
    FirstSeenAppend(xs[..i], [xs[i]], key, seen);
    KeysSnoc(xs[..i], xs[i], key);
    assert [xs[i]][1..] == [];
  }

  /** Writing `xs` and then `ys` writes what `xs` writes, then what `ys` adds to it. */
  lemma {:induction false} FirstSeenAppend<T>(xs: seq<T>, ys: seq<T>, key: T -> string, seen: set<string>)
    ensures FirstSeen(xs + ys, key, seen) == FirstSeen(xs, key, seen) + FirstSeen(ys, key, seen + Keys(xs, key))
    decreases |xs|
  {
    if |xs| == 0 {
      assert xs + ys == ys;
      assert Keys(xs, key) == {};
      assert seen + Keys(xs, key) == seen;
    } else {
      var k := key(xs[0]);
      assert (xs + ys)[0] == xs[0] && (xs + ys)[1..] == xs[1..] + ys;
      KeysCons(xs, key);
      if k in seen {
        FirstSeenAppend(xs[1..], ys, key, seen);
        assert seen + Keys(xs, key) == seen + Keys(xs[1..], key);
      } else {
        FirstSeenAppend(xs[1..], ys, key, seen + {k});
        assert seen + {k} + Keys(xs[1..], key) == seen + Keys(xs, key);
      }
    }
  }

  // ---------------------------------------------------------------------
  // Order independence

  lemma KeysPermutation<T>(xs: seq<T>, ys: seq<T>, key: T -> string)
    requires multiset(xs) == multiset(ys)
    ensures Keys(xs, key) == Keys(ys, key)
  {
    forall k | k in Keys(xs, key) ensures k in Keys(ys, key) {
      var i :| 0 <= i < |xs| && key(xs[i]) == k;
      assert xs[i] in multiset(ys);
      var j :| 0 <= j < |ys| && ys[j] == xs[i];
    }
    forall k | k in Keys(ys, key) ensures k in Keys(xs, key) {
      var i :| 0 <= i < |ys| && key(ys[i]) == k;
      assert ys[i] in multiset(xs);
      var j :| 0 <= j < |xs| && xs[j] == ys[i];
    }
  }

  lemma {:induction false} ProcessedAllCompleted(cs: seq<TaskOutcome>)
    requires forall i :: 0 <= i < |cs| ==> cs[i].Completed?
    ensures Processed(cs) == MapSeq(cs, DataOf)
    decreases |cs|
  {
    if |cs| > 0 {
      ProcessedAllCompleted(cs[1..]);
      assert MapSeq([cs[0]], DataOf) == [cs[0].data];
      MapSeqAppend([cs[0]], cs[1..], DataOf);
      assert cs == [cs[0]] + cs[1..];
    }
  }

  /** The result a completed future returns; a re-raising one has none. */
  function DataOf(o: TaskOutcome): TaskResult
  {
    match o
    case Completed(data) => data
    case Raised(_) => TaskResult([], [], [], [])
  }

  lemma GatherPermutation<T>(rs: seq<TaskResult>, ss: seq<TaskResult>, f: TaskResult -> seq<T>)
    requires multiset(rs) == multiset(ss)
    ensures multiset(Gather(rs, f)) == multiset(Gather(ss, f))
  {
    MapSeqPermutation(rs, ss, f);
    FlattenPermutation(MapSeq(rs, f), MapSeq(ss, f));
  }

  /**
   * Whatever order the worker tasks complete in, when none re-raises the run writes the same
   * study and sample accessions (each exactly once, by `Valid`) and the same
   * analyses rows and error lines, up to order.
   */
  lemma OrderIndependent(c1: seq<TaskOutcome>, c2: seq<TaskOutcome>)
    requires multiset(c1) == multiset(c2)
    requires forall i :: 0 <= i < |c1| ==> c1[i].Completed?
    ensures forall i :: 0 <= i < |c2| ==> c2[i].Completed?
    ensures Keys(Gather(Processed(c1), StudiesOf), StudyKey) == Keys(Gather(Processed(c2), StudiesOf), StudyKey)
    ensures Keys(Gather(Processed(c1), SamplesOf), SampleKey) == Keys(Gather(Processed(c2), SamplesOf), SampleKey)
    ensures multiset(Gather(Processed(c1), AnalysesOf)) == multiset(Gather(Processed(c2), AnalysesOf))
    ensures multiset(Gather(Processed(c1), ErrorsOf)) == multiset(Gather(Processed(c2), ErrorsOf))
  {
    forall i | 0 <= i < |c2| ensures c2[i].Completed? {
      assert c2[i] in multiset(c1);
    }
    ProcessedAllCompleted(c1);
    ProcessedAllCompleted(c2);
    MapSeqPermutation(c1, c2, DataOf);
    var p1, p2 := Processed(c1), Processed(c2);
    GatherPermutation(p1, p2, StudiesOf);
    GatherPermutation(p1, p2, SamplesOf);
    GatherPermutation(p1, p2, AnalysesOf);
    GatherPermutation(p1, p2, ErrorsOf);
    KeysPermutation(Gather(p1, StudiesOf), Gather(p2, StudiesOf), StudyKey);
    KeysPermutation(Gather(p1, SamplesOf), Gather(p2, SamplesOf), SampleKey);
  }

  /** As written, some future re-raises exactly when the remote read of some input line's accession fails. */
  lemma RaisesIffSomeFetchFails(lines: seq<string>, fetch: string -> FetchResult, labels: set<string>, retrieve: Artifact -> bool)
    ensures (exists i :: 0 <= i < |lines| && Outcomes(lines, fetch, labels, retrieve)[i].Raised?)
        <==> (exists i :: 0 <= i < |lines| && fetch(InputAccession(lines[i])).FetchFailed?)
  {
    var os := Outcomes(lines, fetch, labels, retrieve);
    forall i | 0 <= i < |lines| ensures os[i].Raised? <==> fetch(InputAccession(lines[i])).FetchFailed? {
      TaskSpecResult(InputAccession(lines[i]), fetch(InputAccession(lines[i])), labels, retrieve);
    }
  }

  /** The outcomes of the worker tasks with the intended handler of a failed read. */
  function IntendedOutcomes(lines: seq<string>, fetch: string -> FetchResult, labels: set<string>, retrieve: Artifact -> bool): seq<TaskOutcome>
  {
    seq(|lines|, i requires 0 <= i < |lines| =>
      IntendedTask(InputAccession(lines[i]), fetch(InputAccession(lines[i])), labels, retrieve))
  }

  /**
   * With the intended handler no future re-raises, so the loop consumes the
   * result of every input line, and a failed read of a line's accession leaves
   * its error line in the errors file.
   */
  lemma IntendedDrainsAll(lines: seq<string>, fetch: string -> FetchResult, labels: set<string>, retrieve: Artifact -> bool,
                          completed: seq<TaskOutcome>)
    requires multiset(completed) == multiset(IntendedOutcomes(lines, fetch, labels, retrieve))
    ensures !exists i :: 0 <= i < |completed| && completed[i].Raised?
    ensures multiset(Processed(completed)) == multiset(MapSeq(IntendedOutcomes(lines, fetch, labels, retrieve), DataOf))
    ensures forall i :: 0 <= i < |lines| && fetch(InputAccession(lines[i])).FetchFailed? ==>
      fetch(InputAccession(lines[i])).message + " : " + InputAccession(lines[i]) + "\n" in Gather(Processed(completed), ErrorsOf)
  {
    var os := IntendedOutcomes(lines, fetch, labels, retrieve);
    IntendedNeverRaises(lines, fetch, labels, retrieve, completed);
    ProcessedAllCompleted(completed);
    MapSeqPermutation(completed, os, DataOf);
    var all := MapSeq(os, DataOf);
    GatherPermutation(Processed(completed), all, ErrorsOf);
    forall i | 0 <= i < |lines| && fetch(InputAccession(lines[i])).FetchFailed?
      ensures fetch(InputAccession(lines[i])).message + " : " + InputAccession(lines[i]) + "\n" in Gather(Processed(completed), ErrorsOf)
    {
      var line := fetch(InputAccession(lines[i])).message + " : " + InputAccession(lines[i]) + "\n";
      IntendedErrorLine(lines, fetch, labels, retrieve, i);
      assert line in multiset(Gather(all, ErrorsOf));
    }
  }

  lemma IntendedNeverRaises(lines: seq<string>, fetch: string -> FetchResult, labels: set<string>, retrieve: Artifact -> bool,
                            completed: seq<TaskOutcome>)
    requires multiset(completed) == multiset(IntendedOutcomes(lines, fetch, labels, retrieve))
    ensures forall i :: 0 <= i < |completed| ==> completed[i].Completed?
  {
    var os := IntendedOutcomes(lines, fetch, labels, retrieve);
    forall i | 0 <= i < |completed| ensures completed[i].Completed? {
      assert completed[i] in multiset(os);
      var k :| 0 <= k < |os| && os[k] == completed[i];
      IntendedTaskAccounts(InputAccession(lines[k]), fetch(InputAccession(lines[k])), labels, retrieve);
    }
  }

  lemma IntendedErrorLine(lines: seq<string>, fetch: string -> FetchResult, labels: set<string>, retrieve: Artifact -> bool, i: nat)
    requires i < |lines| && fetch(InputAccession(lines[i])).FetchFailed?
    ensures fetch(InputAccession(lines[i])).message + " : " + InputAccession(lines[i]) + "\n"
      in Gather(MapSeq(IntendedOutcomes(lines, fetch, labels, retrieve), DataOf), ErrorsOf)
  {
    var acc := InputAccession(lines[i]);
    var line := fetch(acc).message + " : " + acc + "\n";
    var all := MapSeq(IntendedOutcomes(lines, fetch, labels, retrieve), DataOf);
    IntendedTaskAccounts(acc, fetch(acc), labels, retrieve);
    assert all[i] == IntendedTask(acc, fetch(acc), labels, retrieve).data;
    assert MapSeq(all, ErrorsOf)[i] == [line];
    FlattenHolds(MapSeq(all, ErrorsOf), i, line);
  }
}

/**
 * One worker task of the fetcher (download_assemblies.py `download_files`)
 * and the input-line parse that names its analysis.
 *
 * The remote read `s.get('analyses', accession)` is the parameter `fetched`
 * (the resource, or the text of the exception it raised); whether
 * `urllib.request.urlretrieve` completes for an artifact is the oracle
 * `retrieve`.
 */
module FetchTask {
  import opened Wrappers
  import opened Strings
  import opened Records

  datatype FetchResult = Fetched(analysis: Analysis) | FetchFailed(message: string)

  /** The `out_data` dict a task returns: its 'errors', 'analysis', 'sample' and 'study' lists. */
  datatype TaskResult = TaskResult(
    errors: seq<string>,
    analyses: seq<Analysis>,
    samples: seq<Sample>,
    studies: seq<Study>)

  /** A finished future: the worker task's result, or the exception `future.result()` re-raises. */
  datatype TaskOutcome = Completed(data: TaskResult) | Raised(exception: string)

  /** `line.split(',')[0]`: the accession a line of the input file submits. */
  function InputAccession(line: string): (acc: string)
    ensures acc <= line
    ensures ',' !in acc
    ensures ',' !in line ==> acc == line
  {
    JoinSplit(line, ',');
    JoinStartsWith(Split(line, ','), ',');
    SplitPiecesNoSep(line, ',');
    if ',' !in line then SplitNoSep(line, ','); Split(line, ',')[0]
    else Split(line, ',')[0]
  }

  /** The artifacts whose label is selected, in the order the analysis lists them. */
  function Selected(ds: seq<Artifact>, labels: set<string>): (r: seq<Artifact>)
    ensures |r| <= |ds|
  {
    if |ds| == 0 then []
    else
      var last := ds[|ds| - 1];
      Selected(ds[..|ds| - 1], labels) + (if last.descriptionLabel in labels then [last] else [])
  }

  /** The attempted artifacts whose retrieval did not complete, in order. */
  function FailedDownloads(attempted: seq<Artifact>, retrieve: Artifact -> bool): (r: seq<Artifact>)
    ensures |r| <= |attempted|
  {
    if |attempted| == 0 then []
    else
      var last := attempted[|attempted| - 1];
      FailedDownloads(attempted[..|attempted| - 1], retrieve) + (if retrieve(last) then [] else [last])
  }

  /** The error line for an artifact that could not be downloaded. */
  function ErrorLine(accession: string, a: Artifact): string
  {
    accession + " " + a.url + "\n"
  }

  function ErrorLines(accession: string, failed: seq<Artifact>): (r: seq<string>)
    ensures |r| == |failed|
  {
    seq(|failed|, i requires 0 <= i < |failed| => ErrorLine(accession, failed[i]))
  }

  /** The exception that escapes a task whose remote read failed: the handler names an undefined variable. */
  const HandlerNameError: string := "NameError"

  /**
   * What a task returns, as written. After a successful read the analysis is
   * recorded, every selected artifact is attempted, each failed attempt adds one
   * error line and the loop goes on; sample and study are added after the loop.
   * After a failed read the handler raises NameError, so no error line is recorded.
   */
  function TaskSpec(accession: string, fetched: FetchResult, labels: set<string>, retrieve: Artifact -> bool): TaskOutcome
  {
    match fetched
    case Fetched(a) =>
      Completed(TaskResult(
        ErrorLines(accession, FailedDownloads(Selected(a.downloads, labels), retrieve)),
        [a], [a.sample], [a.study]))
    case FetchFailed(_) => Raised(HandlerNameError)
  }

  /** The evidently intended handler: record `"<exception> : <accession>\n"` and return normally. */
  function IntendedTask(accession: string, fetched: FetchResult, labels: set<string>, retrieve: Artifact -> bool): TaskOutcome
  {
    match fetched
    case Fetched(_) => TaskSpec(accession, fetched, labels, retrieve)
    case FetchFailed(e) => Completed(TaskResult([e + " : " + accession + "\n"], [], [], []))
  }

  /**
   * `download_files`: `attempted` lists the downloads started, in order.
   */
  method DownloadFiles(accession: string, fetched: FetchResult, labels: set<string>, retrieve: Artifact -> bool)
    returns (outcome: TaskOutcome, attempted: seq<Artifact>)
    ensures outcome == TaskSpec(accession, fetched, labels, retrieve)
    ensures attempted == if fetched.Fetched? then Selected(fetched.analysis.downloads, labels) else []
  {
    if fetched.FetchFailed? {
      // The except clause formats the undefined name `analyses_accession`.
      return Raised(HandlerNameError), [];
    }
    var analysis := fetched.analysis;
    var errors: seq<string> := [];
    attempted := [];
    var i := 0;
    while i < |analysis.downloads|
      invariant 0 <= i <= |analysis.downloads|
      invariant attempted == Selected(analysis.downloads[..i], labels)
      invariant errors == ErrorLines(accession, FailedDownloads(attempted, retrieve))
    {
      var download := analysis.downloads[i];
      DownloadStep(accession, analysis.downloads, i, labels, retrieve);
      if download.descriptionLabel in labels {
        attempted := attempted + [download];
        if !retrieve(download) {
          errors := errors + [ErrorLine(accession, download)];
        }
      }
      i := i + 1;
    }
    assert analysis.downloads[..i] == analysis.downloads;
    outcome := Completed(TaskResult(errors, [analysis], [analysis.sample], [analysis.study]));
  }

  /** One turn of the download loop: the artifact is attempted iff selected, and reported iff also not retrieved. */
  lemma DownloadStep(accession: string, ds: seq<Artifact>, i: nat, labels: set<string>, retrieve: Artifact -> bool)
    requires i < |ds|
    ensures var d := ds[i];
      Selected(ds[..i + 1], labels) == Selected(ds[..i], labels) + (if d.descriptionLabel in labels then [d] else [])
    ensures var d := ds[i];
      ErrorLines(accession, FailedDownloads(Selected(ds[..i + 1], labels), retrieve))
      == ErrorLines(accession, FailedDownloads(Selected(ds[..i], labels), retrieve))
         + (if d.descriptionLabel in labels && !retrieve(d) then [ErrorLine(accession, d)] else [])
  {
    assert ds[..i + 1][..i] == ds[..i];
    var d := ds[i];
    var before := Selected(ds[..i], labels);
    var failed := FailedDownloads(before, retrieve);
    var after := Selected(ds[..i + 1], labels);
    if d.descriptionLabel in labels {
      assert after == before + [d];
      assert (before + [d])[..|before|] == before;
      if retrieve(d) {
        assert FailedDownloads(after, retrieve) == failed;
      } else {
        assert FailedDownloads(after, retrieve) == failed + [d];
        assert ErrorLines(accession, failed + [d]) == ErrorLines(accession, failed) + [ErrorLine(accession, d)];
      }
    } else {
      assert after == before;
    }
  }

  // ---------------------------------------------------------------------
  // Properties

  /** An artifact is attempted iff the analysis lists it and its label is selected; order follows the listing. */
  lemma {:induction false} SelectedSpec(ds: seq<Artifact>, labels: set<string>)
    ensures forall a :: a in Selected(ds, labels) <==> a in ds && a.descriptionLabel in labels
    decreases |ds|
  {
    if |ds| > 0 {
      SelectedSpec(ds[..|ds| - 1], labels);
      assert ds == ds[..|ds| - 1] + [ds[|ds| - 1]];
    }
  }

  lemma {:induction false} SelectedAppend(xs: seq<Artifact>, ys: seq<Artifact>, labels: set<string>)
    ensures Selected(xs + ys, labels) == Selected(xs, labels) + Selected(ys, labels)
    decreases |ys|
  {
    if |ys| > 0 {
      SelectedAppend(xs, ys[..|ys| - 1], labels);
      assert (xs + ys)[..|xs + ys| - 1] == xs + ys[..|ys| - 1];
    } else {
      assert xs + ys == xs;
    }
  }

  /** An attempted artifact fails iff the retrieval oracle says so. */
  lemma {:induction false} FailedSpec(attempted: seq<Artifact>, retrieve: Artifact -> bool)
    ensures forall a :: a in FailedDownloads(attempted, retrieve) <==> a in attempted && !retrieve(a)
    decreases |attempted|
  {
    if |attempted| > 0 {
      FailedSpec(attempted[..|attempted| - 1], retrieve);
      assert attempted == attempted[..|attempted| - 1] + [attempted[|attempted| - 1]];
    }
  }

  /**
   * A task whose read succeeded completes: one analysis, its sample and its study,
   * and one error line `"<accession> <url>\n"` per selected artifact whose download
   * failed, and no other. A task whose read failed completes with no data at all.
   */
  lemma TaskSpecResult(accession: string, fetched: FetchResult, labels: set<string>, retrieve: Artifact -> bool)
    ensures TaskSpec(accession, fetched, labels, retrieve).Completed? <==> fetched.Fetched?
    ensures fetched.Fetched? ==>
      var a := fetched.analysis;
      var r := TaskSpec(accession, fetched, labels, retrieve).data;
      && r.analyses == [a] && r.samples == [a.sample] && r.studies == [a.study]
      && |r.errors| <= |a.downloads|
      && (forall e :: e in r.errors <==>
            exists d :: d in a.downloads && d.descriptionLabel in labels && !retrieve(d) && e == ErrorLine(accession, d))
  {
    if fetched.Fetched? {
      var a := fetched.analysis;
      var attempted := Selected(a.downloads, labels);
      var failed := FailedDownloads(attempted, retrieve);
      SelectedSpec(a.downloads, labels);
      FailedSpec(attempted, retrieve);
      var r := TaskSpec(accession, fetched, labels, retrieve).data;
      forall e | e in r.errors
        ensures exists d :: d in a.downloads && d.descriptionLabel in labels && !retrieve(d) && e == ErrorLine(accession, d)
      {
        var k :| 0 <= k < |r.errors| && r.errors[k] == e;
        assert failed[k] in failed;
      }
      forall d | d in a.downloads && d.descriptionLabel in labels && !retrieve(d)
        ensures ErrorLine(accession, d) in r.errors
      {
        assert d in failed;
        var k :| 0 <= k < |failed| && failed[k] == d;
        assert r.errors[k] == ErrorLine(accession, d);
      }
    }
  }

  /**
   * As written, a failed read leaves no trace in the worker task's result: the worker task
   * raises instead of recording an error line. The intended handler records
   * exactly one line naming the accession.
   */
  lemma FetchFailureRecordsNoError(accession: string, message: string, labels: set<string>, retrieve: Artifact -> bool)
    ensures TaskSpec(accession, FetchFailed(message), labels, retrieve) == Raised(HandlerNameError)
    ensures var r := IntendedTask(accession, FetchFailed(message), labels, retrieve);
      && r.Completed?
      && r.data.analyses == [] && r.data.samples == [] && r.data.studies == []
      && r.data.errors == [message + " : " + accession + "\n"]
  {
  }

  /**
   * With the intended handler every task completes, and accounts for its accession
   * exactly once: by one analysis, or else by one error line naming it.
   */
  lemma IntendedTaskAccounts(accession: string, fetched: FetchResult, labels: set<string>, retrieve: Artifact -> bool)
    ensures var r := IntendedTask(accession, fetched, labels, retrieve);
      && r.Completed?
      && (|r.data.analyses| == 1 <==> fetched.Fetched?)
      && (|r.data.analyses| == 0 <==> fetched.FetchFailed?)
      && (fetched.FetchFailed? ==> r.data.errors == [fetched.message + " : " + accession + "\n"])
  {
  }

  /** A line of the enumerator's output, `"<id>, <type>, <assembly>\n"`, submits `<id>`. */
  lemma InputAccessionOfRow(id: string, rest: string)
    requires ',' !in id
    ensures InputAccession(id + "," + rest) == id
  {
    SplitAt(id, ',', rest);
    assert id + "," + rest == id + [','] + rest;
  }
}

# MGnify assembly downloader, modelled in Dafny

This project models the two scripts of the MGnify assembly downloader:

- The **enumerator** (`get_analyses_and_assemblies.py`) requests the pages of the MGnify analyses listing.
  - One task runs per page, on a pool of three workers.
  - Each page keeps the analyses that have an assembly relation.
  - It writes one `"<analysis id>, <assembly type>, <assembly id>"` line per kept analysis, in the order the page tasks complete.
- The **fetcher** (`download_assemblies.py`) reads a file of such lines and submits one `download_files` task per line, keyed by the text before the first comma.
  - Each task reads the analysis resource and downloads the artifacts whose label the user selected with `-d` codes.
  - It returns the analysis, its sample, its study and one error line per failed download.
  - The coordinating loop of `main` consumes the finished tasks in completion order and does all the writing.
  - A study or a sample is written only the first time its accession is seen: its own file (`studies_name_and_abstract/<acc>.name_and_abstract`, `samples_metadata/<acc>.metadata`) and one row of the shared summary file.
  - Every analysis gets a row in `4_analyses.txt`, and every error line is appended to the error file.

Modules, one per file:

- `Wrappers`: `Option` and `Result`.
- `Strings`: Python's `str.split`, `join`, `replace` and `lstrip`, plus flattening of appended chunks.
- `Records`: the remote resources as values.
- `Cleaning`:
  - `clean_sample_desc`, `clean_species`, `format_unit` and `convert_metadata`;
  - `write_sample_metadata`, as a loop over the converted dict.
- `Rows`: the three summary rows and their headers, the name-and-abstract file and the per-entity paths.
- `DownloadOptions`: the code-to-label table and the selected label set.
- `FetchTask`: `download_files`, as a loop, and the input-line parse.
- `Aggregation`: `main` of the fetcher.
- `Enumerator`: the whole enumerator.

Files are values. A shared file opened for appending is the sequence of chunks written to it. A per-entity directory is a map from the accession to the content of its file. The file's path (`StudyPath`/`SamplePath`) determines the accession, as `Rows.PathsInjective` proves.

The concurrent pool is modelled by its effect on the coordinator. Every task's outcome is computed from its input. The loop then sees those outcomes in an arbitrary order: any sequence with the same multiset.

A worker exception is an outcome `Raised`. `future.result()` re-raises it in `main`, which then stops with the outputs written so far.

The enumerator's page requests are modelled the same way. A page whose request or decoding raises is `PageRaised`.

Where the code falls short of what its own comments and names promise, the model follows the code:

- The `try` at `download_assemblies.py:134` is marked as handling a 404 error. The comment at lines 207-209 says the error file lists every analysis whose retrieval went wrong. Both say that a failed read becomes an error line. In the code, the handler for a failed analysis read raises `NameError` (first row of "## Findings"), and `main` re-raises it.
- `get_pagination` returns the service's `pages` field, the number of pages (`get_analyses_and_assemblies.py:16`). Line 43 takes it as the last page. In the code, `range(MIN_PAGE, MAX_PAGE)` excludes that page (second row of "## Findings").

Each element of the fetcher's input `lines` is a line as `for line in f` yields it, trailing `"\n"` included (`download_assemblies.py:264-265`). A line with no comma therefore submits its accession with the newline still attached.

Line 292 of `download_assemblies.py` lacks the `with` keyword (`open(samples_file, 'a') as samples_fh:`). As written, the module is a `SyntaxError` and nothing in it runs. The model gives that line the meaning of the identical `with open(..., 'a')` blocks at lines 281, 298 and 302: the sample row is appended to the samples file. This is not a "## Findings" row because a script that does not compile has no behaviour to set beside the intended one.

`clean_sample_desc` replaces only `"\r\n"` when the text holds one. A lone `"\n"` elsewhere in such a text survives, as `Cleaning.CleanSampleDescKeepsLoneNewline` shows. The model keeps this behaviour.

## Model

| member | source | states |
|---|---|---|
| Cleaning.CleanSampleDesc | download_assemblies.py:46-59 | A missing description (`None`, for which the `except` returns the argument) stays missing, and a present one stays present |
| Cleaning.CleanSampleDescSpec | download_assemblies.py:46-56 | Text without a newline is returned unchanged. With a newline, the result has no leading, trailing or doubled space and equals the text after the newline replacement apart from spaces. Without `"\r\n"`, the result holds no newline and, apart from spaces, is the input with its newlines deleted. When any word is left, the result splits on single spaces into exactly the non-empty words of the newline-replaced text, in order |
| Cleaning.CleanSampleDescKeepsLoneNewline | download_assemblies.py:49-50 | When `"\r\n"` occurs, only it is replaced: `"a\r\nb\nc"` cleans to `"a b\nc"` |
| Cleaning.CleanSpecies | download_assemblies.py:62-67 | `None` stays `None` (the `except` path); otherwise the result is a suffix of the species |
| Cleaning.CleanSpeciesSpec | download_assemblies.py:65 | `lstrip()`: the result is a suffix, everything removed is whitespace, the result does not start with whitespace, and stripping again changes nothing |
| Cleaning.FormatUnit | download_assemblies.py:29-33 | A falsy unit (`None` or empty) formats as the empty string |
| Cleaning.ConvertMetadata | download_assemblies.py:36-42 | The dict's keys are exactly the indices of the metadata list, and entry `i` is `(key, value, format_unit(unit))` of element `i` |
| Cleaning.WriteSampleMetadata | download_assemblies.py:81-88 | The file text is one tab-separated line per metadata entry, newline-terminated, in index order |
| Cleaning.MetadataFileRows | download_assemblies.py:81-88 | Read back, the metadata file splits into one line per entry and a final empty piece, and each line splits on tabs into that entry's key, value and formatted unit |
| Rows.TabRowFields | download_assemblies.py:98-102 | A formatted summary row ends in a newline, starts with its first field and a tab, and splits back into its fields when no field holds a tab |
| Rows.StudiesRowShape | download_assemblies.py:96-102 | A study row starts with the accession, ends in a newline and has eight fields, the last being `samples_count` |
| Rows.SamplesRowShape | download_assemblies.py:105-119 | A sample row has sixteen fields: the accession, the study accessions joined by `;`, the cleaned description in field 5 and the cleaned species in field 15; the joined accessions split back on `;` |
| Rows.AnalysesRowShape | download_assemblies.py:122-127 | An analysis row has six fields, starting with the analysis, assembly, sample and study accessions |
| Rows.StudiesHeaderShape | download_assemblies.py:218-225 | The studies header has the eight column names, tab-separated |
| Rows.SamplesHeaderShape | download_assemblies.py:227-242 | The samples header has the sixteen column names, tab-separated |
| Rows.AnalysesHeaderShape | download_assemblies.py:245-250 | The analyses header has the six column names, tab-separated |
| Rows.NameAndAbstractLines | download_assemblies.py:75-78 | The study file is exactly the lines `name: <name>` and `abstract: <abstract>` |
| Rows.PathsInjective | download_assemblies.py:278-290 | Distinct accessions get distinct study files and distinct sample files |
| DownloadOptions.DefinedCodes | download_assemblies.py:169-187 | The codes with a label are exactly 1 to 15 and 17 to 20 |
| DownloadOptions.OnlyCollision | download_assemblies.py:184-185 | Two codes share a label iff they are 17 and 18 |
| DownloadOptions.LabelsDiffer | download_assemblies.py:169-187 | All other pairs of codes have different labels |
| DownloadOptions.LabelsOfFails | download_assemblies.py:190 | Building the label set succeeds iff every code has a label; otherwise it fails with the first code that has none |
| DownloadOptions.LabelsOfContents | download_assemblies.py:190 | The label set holds the label of every given code and nothing else, and is no larger than the code list |
| DownloadOptions.CollidingCodesSelectOneLabel | download_assemblies.py:184-190 | Selecting codes 17 and 18 selects the single label `antiSMASH annotation` |
| FetchTask.InputAccession | download_assemblies.py:265 | The submitted accession is a comma-free prefix of the line, and the whole line when it has no comma |
| FetchTask.InputAccessionOfRow | download_assemblies.py:265 | A line `<id>,<rest>` with a comma-free `<id>` submits `<id>` |
| FetchTask.DownloadFiles | download_assemblies.py:129-166 | The loop's outcome is `TaskSpec` of its inputs, and it attempts exactly the selected artifacts in listing order; after a failed read it attempts none |
| FetchTask.SelectedSpec | download_assemblies.py:142-143 | An artifact is attempted iff the analysis lists it and its label is selected |
| FetchTask.SelectedAppend | download_assemblies.py:142-143 | Selection keeps the listing order |
| FetchTask.FailedSpec | download_assemblies.py:147-159 | An attempted artifact gets an error line iff its retrieval fails |
| FetchTask.TaskSpecResult | download_assemblies.py:129-166 | A task completes iff its read succeeds. It then returns the analysis, its sample and its study, and an error line `"<acc> <url>\n"` exactly for each selected artifact whose download failed |
| FetchTask.FetchFailureRecordsNoError | download_assemblies.py:163-165 | As written, a failed read makes the worker task raise `NameError` instead of recording an error; the intended handler completes with no analysis, sample or study, and its only error line is `"<message> : <accession>\n"` |
| FetchTask.IntendedTaskAccounts | download_assemblies.py:163-165 | With the intended handler every task completes and accounts for its accession once: one analysis if the read succeeded, else exactly its error line |
| Aggregation.SubmitTasks | download_assemblies.py:261-266 | One task per input line, in line order, for the accession before the line's first comma |
| Aggregation.OpenOutputs | download_assemblies.py:215-253 | The opened outputs reflect no results and hold exactly the three headers |
| Aggregation.ConsumeStudies | download_assemblies.py:275-284 | Studies whose accession is new get their file and a row, each once and in order of first appearance; the trace gains all the result's study accessions |
| Aggregation.ConsumeSamples | download_assemblies.py:286-295 | The same for samples, whose file is the metadata text |
| Aggregation.ConsumeAnalyses | download_assemblies.py:297-299 | Every analysis of the result appends its row |
| Aggregation.ConsumeErrors | download_assemblies.py:301-303 | Every error line of the result is appended |
| Aggregation.Consume | download_assemblies.py:273-303 | Consuming one result keeps the outputs valid: deduplicated per-entity files, and summary files that hold the header and one row per written entity. The headers are untouched |
| Aggregation.Drain | download_assemblies.py:268-303 | The loop stops iff some future re-raises. The outputs then reflect exactly the results before the first re-raise, each study and sample written once, and keep the headers |
| Aggregation.RunFetcher | download_assemblies.py:189-303 | A bad `-d` code list (absent, or with a code that has no label) fails with that error and writes nothing. Otherwise the outputs have their headers and reflect the results consumed in completion order |
| Aggregation.DeduplicatedStep | download_assemblies.py:277-284 | Writing an entity whose accession is not in the trace keeps each accession written exactly once, with its file and its row |
| Aggregation.FirstSeenSpec | download_assemblies.py:275-295 | The written entities have distinct accessions, cover exactly the seen accessions not already traced, and come from the results |
| Aggregation.FirstSeenAppend | download_assemblies.py:275-295 | Deduplicating a concatenation is deduplicating the first part, then the second against the accessions the first added |
| Aggregation.OrderIndependent | download_assemblies.py:268-303 | When no future re-raises, any completion order gives the same written study and sample accessions, and the same analysis rows and error lines up to order |
| Aggregation.RaisesIffSomeFetchFails | download_assemblies.py:271 | As written, a future re-raises iff the read of some input line's accession fails |
| Aggregation.IntendedDrainsAll | download_assemblies.py:163-165 | With the intended handler no future re-raises and every task's result is consumed. Every failed read's line `"<exception> : <accession>\n"` reaches the error file |
| Enumerator.Kept | get_analyses_and_assemblies.py:31-35 | The kept items are no more than the page's items, and all have an assembly |
| Enumerator.AssemblyRows | get_analyses_and_assemblies.py:31-36 | The page loop produces exactly the page's rows |
| Enumerator.PageTask | get_analyses_and_assemblies.py:19-36 | A page task returns the rows of the page it reads, or raises when the read fails |
| Enumerator.SubmitPages | get_analyses_and_assemblies.py:47 | One task per page of the range, in range order |
| Enumerator.WriteResults | get_analyses_and_assemblies.py:49-54 | The loop stops iff some future re-raises. The file holds every row of the results before that, each followed by a newline, in completion order |
| Enumerator.WriteRows | get_analyses_and_assemblies.py:52-54 | Writing a result appends each of its rows followed by a newline, in result order |
| Enumerator.EnumeratorMain | get_analyses_and_assemblies.py:38-54 | Under any completion order of the page tasks, the file is the rows consumed before the first re-raise, newline-terminated |
| Enumerator.KeptMembers | get_analyses_and_assemblies.py:34 | An item is kept iff it is on the page and has an assembly relation |
| Enumerator.KeptAppend | get_analyses_and_assemblies.py:31-35 | Keeping preserves page order |
| Enumerator.RowsOfKept | get_analyses_and_assemblies.py:31-35 | There is one row per kept item, in the same order, formatted from that item |
| Enumerator.RowFields | get_analyses_and_assemblies.py:35 | A row splits on commas into the analysis id and the assembly type and id, each after a space |
| Enumerator.RowSubmitsAnalysis | get_analyses_and_assemblies.py:35 | A written line, read by the fetcher, submits its analysis id |
| Enumerator.RangeMembers | get_analyses_and_assemblies.py:47 | `range(lo, hi)` holds exactly `lo` to `hi - 1`, ascending |
| Enumerator.PageTasksSkipsLastPage | get_analyses_and_assemblies.py:42-47 | As written, the last page is never requested, and a one-page listing gives no task |
| Enumerator.AllPagesCovers | get_analyses_and_assemblies.py:42-47 | The intended range holds exactly the pages from the first to the last, in order: the written range plus the last page |
| Enumerator.EnumeratedRows | get_analyses_and_assemblies.py:49-54 | When no page request raises, the file holds, as a multiset, exactly the rows of every submitted page, whatever the completion order |
| Enumerator.EveryPageWritten | get_analyses_and_assemblies.py:42-54 | With the intended range and no failing request, every row of every page of the listing reaches the file |

## Left out

- HTTP and the MGnify API (`jsonapi_client.Session`, `requests.get`, `json.loads`, `urllib.request.urlretrieve`) are foreign calls. They become parameters:
  - a read function from accession to analysis or failure (`FetchResult`);
  - a retrieval oracle per artifact;
  - a page function from page number to the page's data items, `None` when the request or its decoding raises.
- `html.unescape` is the parameter `unescape: string -> string`. Its behaviour is not modelled.
- `str()` rendering of attributes that are not strings (numbers, dates) is not modelled. The records hold the rendered text.
- The thread pools are modelled by the order in which results reach the coordinator, which may be any permutation. Worker scheduling, `time.sleep` and the pool size are not modelled.
- Page 1's pagination request (`get_pagination`) is a foreign call. Its `page` and `pages` are the input `Pagination`, and `count` is left out.
- `print`, `argparse` help text, `os.makedirs`, `datetime.date.today()` and the file names built from the date are left out.
- The artifact files a download creates are left out: the retrieval oracle's answer stands for them. Only the error lines are modelled.
- Local I/O errors are left out, such as `os.makedirs` failing after the analysis is appended, or a write failing.
- A missing `relationships.assembly.data` key, or an assembly object without `type`/`id`, is not modelled. Such an item raises `KeyError` in the worker task. The model treats the relation as either empty (`None`) or complete.
- The enumerator's `if current // 100 == 0` prints only for pages below 100. It only affects printing, so it is left out.
- The directory `studies_name_and_abstract/` and `samples_metadata/` are modelled as maps keyed by accession, not by path. This changes nothing, by `Rows.PathsInjective`.
- Aggregation.RunFetcher: models the fetcher as written, whose failed reads raise. The intended handler is connected to the coordinator by `Aggregation.IntendedDrainsAll` rather than by a second copy of `main`.

## Findings

| source | as written | input that shows it | evidently intended | confidence | as-written member | corrected member |
|---|---|---|---|---|---|---|
| download_assemblies.py:165 | The handler for a failed analysis read formats `analyses_accession`, a name that is not defined, so the handler itself raises `NameError`; `future.result()` re-raises it in `main` and the run stops | An input line whose accession the service does not know (a 404 on `s.get('analyses', ...)`) | Append `"<exception> : <analysis_accession>\n"` to the worker task's errors and return normally | high; not executed | FetchTask.FetchFailureRecordsNoError | FetchTask.IntendedTaskAccounts |
| get_analyses_and_assemblies.py:47 | `range(MIN_PAGE, MAX_PAGE)` stops before `MAX_PAGE`, so the last page of the listing is never requested | `Pagination(1, 1)`: a listing of one page gives no task at all; with `pages = n`, page `n` is missing | `range(MIN_PAGE, MAX_PAGE + 1)`, requesting every page | high; not executed | Enumerator.PageTasksSkipsLastPage | Enumerator.AllPagesCovers |

/**
 * The enumerator (get_analyses_and_assemblies.py): one task per page of the
 * analyses listing, each keeping the analyses that have an assembly, and one
 * file of `"<analysis id>, <assembly type>, <assembly id>"` lines, written in
 * the order the page tasks complete.
 */
module Enumerator {
  import opened Wrappers
  import opened Strings
  import FetchTask

  /** A non-empty `relationships.assembly.data` object: its `type` and its `id`. */
  datatype AssemblyRef = AssemblyRef(kind: string, id: string)

  /** One element of a page's `data` list: the analysis id and its assembly relation (`None` when that is empty). */
  datatype DataItem = DataItem(id: string, assembly: Option<AssemblyRef>)

  /** `meta.pagination` of the first page: the page it is and the number of pages. */
  datatype Pagination = Pagination(page: int, pages: int)

  /** What `future.result()` gives for a page task: the worker task's rows, or the exception it re-raises. */
  datatype PageOutcome = PageRows(rows: seq<string>) | PageRaised(exception: string)

  /** The exception a page task raises when its request or the decoding of the answer fails. */
  const PageError := "page request failed"

  /** The line written for an analysis with an assembly. */
  function FormatRow(id: string, a: AssemblyRef): string
  {
    id + ", " + a.kind + ", " + a.id
  }

  /** The items of a page that have an assembly relation, in page order. */
  function Kept(items: seq<DataItem>): (r: seq<DataItem>)
    ensures |r| <= |items|
    ensures forall k :: 0 <= k < |r| ==> r[k].assembly.Some?
  {
    if |items| == 0 then []
    else Kept(items[..|items| - 1]) + (if items[|items| - 1].assembly.Some? then [items[|items| - 1]] else [])
  }

  /** The rows of a page, in page order. */
  function RowsOf(items: seq<DataItem>): seq<string>
  {
    if |items| == 0 then []
    else
      var x := items[|items| - 1];
      RowsOf(items[..|items| - 1]) + (match x.assembly case Some(a) => [FormatRow(x.id, a)] case None => [])
  }

  /** The loop of `get_assembly_and_analyses_ids` over `json_obj["data"]`. */
  method AssemblyRows(items: seq<DataItem>) returns (out: seq<string>)
    ensures out == RowsOf(items)
  {
    out := [];
    var i := 0;
    while i < |items|
      invariant 0 <= i <= |items|
      invariant out == RowsOf(items[..i])
    {
      var analyses := items[i];
      assert items[..i + 1][..i] == items[..i];
      if analyses.assembly.Some? {
        out := out + [FormatRow(analyses.id, analyses.assembly.value)];
      }
      i := i + 1;
    }
    assert items[..i] == items;
  }

  /** The outcome of `get_assembly_and_analyses_ids(page)`; `fetch` gives the page's `data` list, `None` when the request raises. */
  function PageOutcomeOf(fetch: int -> Option<seq<DataItem>>): int -> PageOutcome
  {
    page => match fetch(page) case Some(items) => PageRows(RowsOf(items)) case None => PageRaised(PageError)
  }

  /** `get_assembly_and_analyses_ids(page)`. */
  method PageTask(page: int, fetch: int -> Option<seq<DataItem>>) returns (outcome: PageOutcome)
    ensures outcome == PageOutcomeOf(fetch)(page)
  {
    var data := fetch(page);
    if data.None? {
      return PageRaised(PageError);
    }
    var out := AssemblyRows(data.value);
    outcome := PageRows(out);
  }

  /** Python's `range(lo, hi)`. */
  function Range(lo: int, hi: int): seq<int>
  {
    if hi <= lo then [] else seq(hi - lo, k requires 0 <= k < hi - lo => lo + k)
  }

  /** `range(MIN_PAGE, MAX_PAGE)`: the pages `main` submits a task for. */
  function PageTasks(p: Pagination): seq<int>
  {
    Range(p.page, p.pages)
  }

  /** The evidently intended page range: every page from the first to the last, both included. */
  function AllPages(p: Pagination): seq<int>
  {
    Range(p.page, p.pages + 1)
  }

  /** The submission comprehension: one task per page, in page order. */
  method SubmitPages(pages: seq<int>, fetch: int -> Option<seq<DataItem>>) returns (futures: seq<PageOutcome>)
    ensures futures == MapSeq(pages, PageOutcomeOf(fetch))
  {
    futures := [];
    var i := 0;
    while i < |pages|
      invariant 0 <= i <= |pages|
      invariant futures == MapSeq(pages[..i], PageOutcomeOf(fetch))
    {
      var outcome := PageTask(pages[i], fetch);
      assert pages[..i + 1] == pages[..i] + [pages[i]];
      MapSeqSnoc(pages[..i], pages[i], PageOutcomeOf(fetch));
      futures := futures + [outcome];
      i := i + 1;
    }
    assert pages[..i] == pages;
  }

  /** The page results the writing loop consumes: those before the first future that re-raises. */
  function Written(cs: seq<PageOutcome>): seq<seq<string>>
  {
    if |cs| == 0 || cs[0].PageRaised? then [] else [cs[0].rows] + Written(cs[1..])
  }

  /** The `for future in as_completed(futures)` loop, writing each row followed by a newline. */
  method WriteResults(completed: seq<PageOutcome>) returns (file: string, raised: bool)
    ensures raised <==> exists i :: 0 <= i < |completed| && completed[i].PageRaised?
    ensures file == Terminated(Flatten(Written(completed)), '\n')
  {
    file := "";
    raised := false;
    var i := 0;
    assert completed[..0] == [];
    while i < |completed|
      invariant 0 <= i <= |completed|
      invariant forall j :: 0 <= j < i ==> completed[j].PageRows?
      invariant file == Terminated(Flatten(Written(completed[..i])), '\n')
    {
      if completed[i].PageRaised? {
        WrittenStops(completed, i);
        raised := true;
        return;
      }
      var result := completed[i].rows;
      if |result| > 0 {
        file := WriteRows(file, Flatten(Written(completed[..i])), result);
      } else {
        assert Flatten(Written(completed[..i])) + result == Flatten(Written(completed[..i]));
      }
      WrittenStep(completed, i);
      i := i + 1;
    }
    assert completed[..i] == completed;
  }

  /** `for r in result: outf.write(r + '\n')`, appending to a file that holds the lines `before`. */
  method WriteRows(file: string, ghost before: seq<string>, rows: seq<string>) returns (file': string)
    requires file == Terminated(before, '\n')
    ensures file' == Terminated(before + rows, '\n')
  {
    file' := file;
    var k := 0;
    assert before + rows[..0] == before;
    while k < |rows|
      invariant 0 <= k <= |rows|
      invariant file' == Terminated(before + rows[..k], '\n')
    {
      assert before + rows[..k + 1] == (before + rows[..k]) + [rows[k]];
      TerminatedSnoc(before + rows[..k], rows[k], '\n');
      file' := file' + rows[k] + "\n";
      k := k + 1;
    }
    assert rows[..k] == rows;
  }

  /** Consuming one more completed page appends its rows to the written ones. */
  lemma WrittenStep(cs: seq<PageOutcome>, i: nat)
    requires i < |cs| && cs[i].PageRows?
    requires forall j :: 0 <= j < i ==> cs[j].PageRows?
    ensures forall j :: 0 <= j < i + 1 ==> cs[j].PageRows?
    ensures Flatten(Written(cs[..i + 1])) == Flatten(Written(cs[..i])) + cs[i].rows
  {
    WrittenSnoc(cs, i);
  }

  /**
   * `main`: `completed` is the order in which the pool finishes the page tasks,
   * any order of them. Returns the text of the output file and whether a
   * re-raised exception ended the run.
   */
  method EnumeratorMain(p: Pagination, fetch: int -> Option<seq<DataItem>>, completed: seq<PageOutcome>)
    returns (file: string, raised: bool)
    requires multiset(completed) == multiset(MapSeq(PageTasks(p), PageOutcomeOf(fetch)))
    ensures raised <==> exists i :: 0 <= i < |completed| && completed[i].PageRaised?
    ensures file == Terminated(Flatten(Written(completed)), '\n')
  {
    var futures := SubmitPages(PageTasks(p), fetch);
    assert multiset(completed) == multiset(futures);
    file, raised := WriteResults(completed);
  }

  // ---------------------------------------------------------------------
  // Properties

  /** An item of a page is kept iff it has an assembly relation. */
  lemma {:induction false} KeptMembers(items: seq<DataItem>)
    ensures forall x :: x in Kept(items) <==> x in items && x.assembly.Some?
    decreases |items|
  {
    if |items| > 0 {
      var init := items[..|items| - 1];
      KeptMembers(init);
      assert items == init + [items[|items| - 1]];
    }
  }

  /** Keeping commutes with concatenation, so kept items keep their page order. */
  lemma {:induction false} KeptAppend(xs: seq<DataItem>, ys: seq<DataItem>)
    ensures Kept(xs + ys) == Kept(xs) + Kept(ys)
    decreases |ys|
  {
    if |ys| == 0 {
      assert xs + ys == xs;
    } else {
      var init := ys[..|ys| - 1];
      KeptAppend(xs, init);
      assert (xs + ys)[..|xs + ys| - 1] == xs + init;
    }
  }

  /** The rows of a page are its kept items, each formatted: one row per kept item, in the same order. */
  lemma {:induction false} RowsOfKept(items: seq<DataItem>)
    ensures |RowsOf(items)| == |Kept(items)|
    ensures forall k :: 0 <= k < |RowsOf(items)| ==>
      RowsOf(items)[k] == FormatRow(Kept(items)[k].id, Kept(items)[k].assembly.value)
    decreases |items|
  {
    if |items| > 0 {
      RowsOfKept(items[..|items| - 1]);
    }
  }

  /** A row splits on commas into the analysis id and the assembly's type and id, each after a space. */
  lemma RowFields(id: string, a: AssemblyRef)
    requires ',' !in id && ',' !in a.kind && ',' !in a.id
    ensures Split(FormatRow(id, a), ',') == [id, " " + a.kind, " " + a.id]
  {
    assert FormatRow(id, a) == id + [','] + ((" " + a.kind) + [','] + " " + a.id);
    assert ((" " + a.kind) + [','] + " " + a.id) == (" " + a.kind) + [','] + (" " + a.id);
    SplitAt(id, ',', (" " + a.kind) + [','] + (" " + a.id));
    SplitAt(" " + a.kind, ',', " " + a.id);
    SplitNoSep(" " + a.id, ',');
  }

  /** A line of the output file, read back by the downloader, submits the analysis it names. */
  lemma RowSubmitsAnalysis(id: string, a: AssemblyRef)
    requires ',' !in id
    ensures FetchTask.InputAccession(FormatRow(id, a) + "\n") == id
  {
    assert FormatRow(id, a) + "\n" == id + "," + (" " + a.kind + ", " + a.id + "\n");
    FetchTask.InputAccessionOfRow(id, " " + a.kind + ", " + a.id + "\n");
  }

  /** `range(lo, hi)` holds exactly the integers from `lo` up to but excluding `hi`, ascending. */
  lemma RangeMembers(lo: int, hi: int)
    ensures |Range(lo, hi)| == if hi <= lo then 0 else hi - lo
    ensures forall k :: 0 <= k < |Range(lo, hi)| ==> Range(lo, hi)[k] == lo + k
    ensures forall n :: n in Range(lo, hi) <==> lo <= n < hi
  {
    forall n | lo <= n < hi ensures n in Range(lo, hi) {
      assert Range(lo, hi)[n - lo] == n;
    }
  }

  /** As written, the last page is never requested, and a listing of one page gives no task at all. */
  lemma PageTasksSkipsLastPage(p: Pagination)
    ensures p.pages !in PageTasks(p)
    ensures PageTasks(Pagination(1, 1)) == []
  {
    RangeMembers(p.page, p.pages);
  }

  /** The intended range requests every page from the first to the last, each once, in order. */
  lemma AllPagesCovers(p: Pagination)
    ensures forall n :: n in AllPages(p) <==> p.page <= n <= p.pages
    ensures forall k :: 0 <= k < |AllPages(p)| ==> AllPages(p)[k] == p.page + k
    ensures p.page <= p.pages ==> |AllPages(p)| == p.pages - p.page + 1 && PageTasks(p) + [p.pages] == AllPages(p)
  {
    RangeMembers(p.page, p.pages + 1);
    RangeMembers(p.page, p.pages);
    if p.page <= p.pages {
      assert |PageTasks(p) + [p.pages]| == |AllPages(p)|;
    }
  }

  lemma WrittenSnoc(cs: seq<PageOutcome>, i: nat)
    requires i < |cs| && cs[i].PageRows?
    requires forall j :: 0 <= j < i ==> cs[j].PageRows?
    ensures Written(cs[..i + 1]) == Written(cs[..i]) + [cs[i].rows]
  {
    assert cs[..i + 1] == cs[..i] + [cs[i]];
    WrittenAppend(cs[..i], [cs[i]]);
    assert Written([cs[i]]) == [cs[i].rows] by {
      assert [cs[i]][1..] == [];
    }
  }

  lemma WrittenStops(cs: seq<PageOutcome>, i: nat)
    requires i < |cs| && cs[i].PageRaised?
    requires forall j :: 0 <= j < i ==> cs[j].PageRows?
    ensures Written(cs) == Written(cs[..i])
  {
    assert cs == cs[..i] + cs[i..];
    WrittenAppend(cs[..i], cs[i..]);
  }

  lemma {:induction false} WrittenAppend(p: seq<PageOutcome>, q: seq<PageOutcome>)
    requires forall j :: 0 <= j < |p| ==> p[j].PageRows?
    ensures Written(p + q) == Written(p) + Written(q)
    decreases |p|
  {
    if |p| == 0 {
      assert p + q == q;
    } else {
      WrittenAppend(p[1..], q);
      assert (p + q)[1..] == p[1..] + q;
    }
  }

  function RowsOfOutcome(o: PageOutcome): seq<string>
  {
    match o case PageRows(rows) => rows case PageRaised(_) => []
  }

  /** The rows of a page as its task produces them, none when the request raises. */
  function PageRowsOf(fetch: int -> Option<seq<DataItem>>): int -> seq<string>
  {
    page => match fetch(page) case Some(items) => RowsOf(items) case None => []
  }

  lemma {:induction false} WrittenAllRows(cs: seq<PageOutcome>)
    requires forall j :: 0 <= j < |cs| ==> cs[j].PageRows?
    ensures Written(cs) == MapSeq(cs, RowsOfOutcome)
    decreases |cs|
  {
    if |cs| > 0 {
      WrittenAllRows(cs[1..]);
      MapSeqAppend([cs[0]], cs[1..], RowsOfOutcome);
      assert cs[0].PageRows?;
      assert MapSeq([cs[0]], RowsOfOutcome)[0] == RowsOfOutcome(cs[0]) == cs[0].rows;
      assert cs == [cs[0]] + cs[1..];
    }
  }

  /**
   * When no page request raises, the file holds, as a multiset, exactly the
   * rows of every submitted page, whatever the order the worker tasks completed in.
   */
  lemma EnumeratedRows(pages: seq<int>, fetch: int -> Option<seq<DataItem>>, completed: seq<PageOutcome>)
    requires multiset(completed) == multiset(MapSeq(pages, PageOutcomeOf(fetch)))
    requires forall k :: 0 <= k < |pages| ==> fetch(pages[k]).Some?
    ensures forall j :: 0 <= j < |completed| ==> completed[j].PageRows?
    ensures multiset(Flatten(Written(completed))) == multiset(Flatten(MapSeq(pages, PageRowsOf(fetch))))
  {
    var futures := MapSeq(pages, PageOutcomeOf(fetch));
    forall j | 0 <= j < |completed| ensures completed[j].PageRows? {
      assert completed[j] in multiset(futures);
      var k :| 0 <= k < |futures| && futures[k] == completed[j];
    }
    WrittenAllRows(completed);
    MapSeqPermutation(completed, futures, RowsOfOutcome);
    assert MapSeq(futures, RowsOfOutcome) == MapSeq(pages, PageRowsOf(fetch));
    FlattenPermutation(MapSeq(completed, RowsOfOutcome), MapSeq(pages, PageRowsOf(fetch)));
  }

  /** With the intended page range, every row of every page of the listing reaches the file. */
  lemma EveryPageWritten(p: Pagination, fetch: int -> Option<seq<DataItem>>, completed: seq<PageOutcome>, n: int, row: string)
    requires multiset(completed) == multiset(MapSeq(AllPages(p), PageOutcomeOf(fetch)))
    requires forall k :: 0 <= k < |AllPages(p)| ==> fetch(AllPages(p)[k]).Some?
    requires p.page <= n <= p.pages && row in PageRowsOf(fetch)(n)
    ensures row in Flatten(Written(completed))
  {
    var pages := AllPages(p);
    RangeMembers(p.page, p.pages + 1);
    assert n in pages;
    var k :| 0 <= k < |pages| && pages[k] == n;
    var chunks := MapSeq(pages, PageRowsOf(fetch));
    assert row in chunks[k];
    FlattenHolds(chunks, k, row);
    EnumeratedRows(pages, fetch, completed);
    assert row in multiset(Flatten(chunks));
  }
}

/**
 * Text cleaning and the per-sample metadata file (download_assemblies.py,
 * `format_unit`, `convert_metadata`, `clean_sample_desc`, `clean_species`,
 * `write_sample_metadata`).
 *
 * `html.unescape` is a library function whose definition is not part of this
 * model; it is the parameter `unescape`, an arbitrary total function.
 */
module Cleaning {
  import opened Wrappers
  import opened Strings
  import opened Records

  /** The newline-to-space step of `clean_sample_desc`: "\r\n" if any occurs, otherwise "\n". */
  function NewlinesToSpaces(d: string): string
  {
    if Contains(d, "\r\n") then Replace(d, "\r\n", " ") else Replace(d, "\n", " ")
  }

  /**
   * `clean_sample_desc`. A `None` description makes `'\n' in None` raise, and
   * the bare `except` returns the argument unchanged. Text without a newline is
   * returned as it is; otherwise newlines become spaces and runs of spaces are
   * collapsed by splitting on ' ' and re-joining the non-empty words.
   */
  function CleanSampleDesc(desc: Option<string>): (r: Option<string>)
    ensures r.None? <==> desc.None?
  {
    match desc
    case None => None
    case Some(d) =>
      if '\n' in d then Some(Join(DropEmpty(Split(NewlinesToSpaces(d), ' ')), ' '))
      else desc
  }

  /** `clean_species`: `species.lstrip()`, and `None` (whose `.lstrip` raises) returned unchanged. */
  function CleanSpecies(species: Option<string>): (r: Option<string>)
    ensures r.None? <==> species.None?
    ensures species.Some? ==> |r.value| <= |species.value| && r.value == species.value[|species.value| - |r.value|..]
  {
    match species
    case None => None
    case Some(s) => Some(LStrip(s))
  }

  /** `format_unit`: a falsy unit (None or "") becomes "", any other is HTML-unescaped. */
  function FormatUnit(unit: Option<string>, unescape: string -> string): (r: string)
    ensures unit == None || unit == Some("") ==> r == ""
  {
    if unit.Some? && unit.value != "" then unescape(unit.value) else ""
  }

  /** The (key, value, unit) triple `convert_metadata` stores for one entry. */
  function Converted(e: MetaEntry, unescape: string -> string): (string, string, string)
  {
    (e.key, e.value, FormatUnit(e.unit, unescape))
  }

  /** `convert_metadata`: a dict from each position in the metadata list to that entry's triple. */
  method ConvertMetadata(metadata: seq<MetaEntry>, unescape: string -> string)
    returns (d: map<nat, (string, string, string)>)
    ensures forall i: nat :: i in d <==> i < |metadata|
    ensures forall i: nat :: i < |metadata| ==> d[i] == Converted(metadata[i], unescape)
  {
    d := map[];
    var i := 0;
    while i < |metadata|
      invariant 0 <= i <= |metadata|
      invariant forall j: nat :: j in d <==> j < i
      invariant forall j: nat :: j < i ==> d[j] == Converted(metadata[j], unescape)
    {
      d := d[i := Converted(metadata[i], unescape)];
      i := i + 1;
    }
  }

  /** One line of a sample's metadata file, without its newline: `key\tvalue\tunit`. */
  function MetadataLine(t: (string, string, string)): string
  {
    Join([t.0, t.1, t.2], '\t')
  }

  /** The lines of the metadata file of a sample, one per metadata entry, in list order. */
  function MetadataLines(metadata: seq<MetaEntry>, unescape: string -> string): (ls: seq<string>)
    ensures |ls| == |metadata|
  {
    seq(|metadata|, i requires 0 <= i < |metadata| => MetadataLine(Converted(metadata[i], unescape)))
  }

  /**
   * `write_sample_metadata`: the text written to `samples_metadata/<accession>.metadata`,
   * visiting the keys of `convert_metadata`'s dict in increasing order.
   */
  method WriteSampleMetadata(sample: Sample, unescape: string -> string) returns (text: string)
    ensures text == Terminated(MetadataLines(sample.metadata, unescape), '\n')
  {
    var d := ConvertMetadata(sample.metadata, unescape);
    ghost var ls := MetadataLines(sample.metadata, unescape);
    text := "";
    var i := 0;
    while i < |sample.metadata|
      invariant 0 <= i <= |sample.metadata|
      invariant text == Terminated(ls[..i], '\n')
    {
      var (key, value, unit) := d[i];
      assert ls[i] == MetadataLine((key, value, unit));
      MetadataStep(ls, i, key, value, unit);
      text := text + key + "\t" + value + "\t" + unit + "\n";
      i := i + 1;
    }
    assert ls[..|sample.metadata|] == ls;
  }

  lemma MetadataStep(ls: seq<string>, i: nat, key: string, value: string, unit: string)
    requires i < |ls| && ls[i] == MetadataLine((key, value, unit))
    ensures Terminated(ls[..i + 1], '\n') == Terminated(ls[..i], '\n') + key + "\t" + value + "\t" + unit + "\n"
  {
    MetadataLineText((key, value, unit));
    TerminatedSnoc(ls[..i], ls[i], '\n');
    assert ls[..i + 1] == ls[..i] + [ls[i]];
  }

  lemma MetadataLineText(t: (string, string, string))
    ensures MetadataLine(t) == t.0 + "\t" + t.1 + "\t" + t.2
  {
    var fs := [t.0, t.1, t.2];
    assert fs[1..] == [t.1, t.2] && fs[1..][1..] == [t.2];
    assert Join(fs[1..], '\t') == t.1 + ['\t'] + t.2;
    assert Join(fs, '\t') == t.0 + ['\t'] + (t.1 + ['\t'] + t.2);
  }

  // ---------------------------------------------------------------------
  // Properties

  /**
   * What `clean_sample_desc` promises. Without a newline the text is untouched.
   * With one, the result has no leading, trailing or doubled space, and apart
   * from spaces it is exactly the text after the newline-to-space step; when
   * the text holds no "\r\n", it is the input with its newlines deleted
   * apart from spaces, and no newline is left. The result splits on single
   * spaces into exactly the non-empty words, in order.
   */
  lemma CleanSampleDescSpec(d: string)
    ensures '\n' !in d ==> CleanSampleDesc(Some(d)) == Some(d)
    ensures '\n' in d ==> Collapsed(CleanSampleDesc(Some(d)).value, ' ')
    ensures '\n' in d ==>
      RemoveAll(CleanSampleDesc(Some(d)).value, ' ') == RemoveAll(NewlinesToSpaces(d), ' ')
    ensures '\n' in d && !Contains(d, "\r\n") ==>
      && RemoveAll(CleanSampleDesc(Some(d)).value, ' ') == RemoveAll(RemoveAll(d, '\n'), ' ')
      && '\n' !in CleanSampleDesc(Some(d)).value
    ensures '\n' in d && DropEmpty(Split(NewlinesToSpaces(d), ' ')) != [] ==>
      Split(CleanSampleDesc(Some(d)).value, ' ') == DropEmpty(Split(NewlinesToSpaces(d), ' '))
  {
    if '\n' in d {
      CleanSampleDescWords(NewlinesToSpaces(d));
      var c := NewlinesToSpaces(d);
      var words := Split(c, ' ');
      var r := Join(DropEmpty(words), ' ');
      SplitPiecesNoSep(c, ' ');
      JoinCollapsed(DropEmpty(words), ' ');
      RemoveAllJoinDropEmpty(words, ' ');
      JoinSplit(c, ' ');
      if !Contains(d, "\r\n") {
        ReplaceThenRemove(d, '\n', ' ');
        ReplaceRemovesChar(d, '\n', " ");
        RemoveAllKeeps(r, ' ', '\n');
        RemoveAllKeeps(c, ' ', '\n');
      }
    }
  }

  /** Joining the non-empty words of a split by one space gives back those words when split again. */
  lemma CleanSampleDescWords(c: string)
    ensures DropEmpty(Split(c, ' ')) != [] ==>
      Split(Join(DropEmpty(Split(c, ' ')), ' '), ' ') == DropEmpty(Split(c, ' '))
  {
    var words := Split(c, ' ');
    var kept := DropEmpty(words);
    if kept != [] {
      SplitPiecesNoSep(c, ' ');
      forall i | 0 <= i < |kept| ensures ' ' !in kept[i] {
        var k :| 0 <= k < |words| && words[k] == kept[i];
      }
      SplitJoin(kept, ' ');
    }
  }

  /** With both "\r\n" and a lone "\n", only the "\r\n" is replaced: the lone newline survives. */
  lemma CleanSampleDescKeepsLoneNewline()
    ensures CleanSampleDesc(Some("a\r\nb\nc")) == Some("a b\nc")
  {
    var tail := "b\nc";
    LoneNewlineReplaced(tail);
    SplitAt("a", ' ', tail);
    SplitNoSep(tail, ' ');
    assert DropEmpty(["a", tail]) == ["a", tail] by {
      assert ["a", tail][1..] == [tail];
      assert [tail][1..] == [];
    }
    assert Join(["a", tail], ' ') == "a" + [' '] + tail by {
      assert ["a", tail][1..] == [tail];
    }
    assert "a" + [' '] + tail == "a b\nc";
  }

  lemma LoneNewlineReplaced(tail: string)
    requires tail == "b\nc"
    ensures '\n' in "a\r\nb\nc" && ' ' !in tail
    ensures NewlinesToSpaces("a\r\nb\nc") == "a" + [' '] + tail
  {
    var d := "a\r\nb\nc";
    assert d[1..] == "\r\n" + tail && d[1..][2..] == tail;
    assert Contains(d, "\r\n") by {
      assert "\r\n" <= d[1..];
    }
    assert !("\r\n" <= d) by {
      assert d[..2][0] == 'a';
    }
    ReplaceAbsentHead(tail, "\r\n", " ");
    assert d[2] == '\n';
    assert Replace(d, "\r\n", " ") == ['a'] + " " + tail;
  }

  /** `clean_species` leaves a suffix of its input that starts with no whitespace, and only whitespace is removed. */
  lemma CleanSpeciesSpec(s: string)
    ensures var r := CleanSpecies(Some(s)).value;
      && r == s[|s| - |r|..]
      && (r == "" || !IsWhitespace(r[0]))
      && (forall i :: 0 <= i < |s| - |r| ==> IsWhitespace(s[i]))
      && CleanSpecies(Some(r)) == Some(r)
  {
  }

  /**
   * The metadata file holds exactly one `key\tvalue\tunit` line per entry, in the
   * original order, when no key, value or formatted unit holds a tab or a newline.
   */
  lemma {:induction false} MetadataFileRows(metadata: seq<MetaEntry>, unescape: string -> string)
    requires forall i :: 0 <= i < |metadata| ==>
      var t := Converted(metadata[i], unescape);
      && '\t' !in t.0 && '\t' !in t.1 && '\t' !in t.2
      && '\n' !in t.0 && '\n' !in t.1 && '\n' !in t.2
    ensures var lines := Split(Terminated(MetadataLines(metadata, unescape), '\n'), '\n');
      && |lines| == |metadata| + 1
      && lines[|metadata|] == ""
      && forall i :: 0 <= i < |metadata| ==>
           Split(lines[i], '\t') == [metadata[i].key, metadata[i].value, FormatUnit(metadata[i].unit, unescape)]
  {
    var ls := MetadataLines(metadata, unescape);
    forall i | 0 <= i < |ls|
      ensures '\n' !in ls[i]
      ensures Split(ls[i], '\t') == [metadata[i].key, metadata[i].value, FormatUnit(metadata[i].unit, unescape)]
    {
      var t := Converted(metadata[i], unescape);
      var fs := [t.0, t.1, t.2];
      MetadataLineText(t);
      SplitJoin(fs, '\t');
    }
    SplitTerminated(ls, '\n');
  }
}

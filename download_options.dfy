/**
 * The `-d/--download` option table of download_assemblies.py `main`: artifact
 * codes and the artifact labels (`description.label`) they select.
 */
module DownloadOptions {
  import opened Wrappers

  /** The code-to-label dict. Code 16 has no entry; codes 17 and 18 share one label. */
  const Options: map<int, string> := map[
    1 := "Processed contigs",
    2 := "Predicted CDS (aa)",
    3 := "Predicted ORF (nt)",
    4 := "Diamond annotation",
    5 := "Complete GO annotation",
    6 := "GO slim annotation",
    7 := "InterPro matches",
    8 := "KEGG orthologues annotation",
    9 := "Pfam annotation",
    10 := "Contigs encoding SSU rRNA",
    11 := "MAPseq SSU assignments",
    12 := "OTUs, counts and taxonomic assignments for SSU rRNA",
    13 := "Contigs encoding LSU rRNA",
    14 := "MAPseq LSU assignments",
    15 := "OTUs, counts and taxonomic assignments for LSU rRNA",
    17 := "antiSMASH annotation",
    18 := "antiSMASH annotation",
    19 := "Genome Properties annotation",
    20 := "KEGG pathway annotation"]

  /** Why the selected label set could not be built. */
  datatype SelectError =
    | NoDownloadOption     // `-d` not given: iterating over `None` raises TypeError
    | UnknownCode(code: int)  // `options[i]` raises KeyError for the first code without an entry

  /**
   * `set([options[i] for i in args.download])`: the labels of the given codes,
   * or the error the first code without an entry raises.
   */
  function SelectLabels(codes: Option<seq<int>>): Result<set<string>, SelectError>
  {
    match codes
    case None => Failure(NoDownloadOption)
    case Some(cs) => LabelsOf(cs, Options)
  }

  /** The comprehension over `cs`, looking each code up in `table` from left to right. */
  function LabelsOf(cs: seq<int>, table: map<int, string>): Result<set<string>, SelectError>
  {
    if |cs| == 0 then Success({})
    else if cs[0] !in table then Failure(UnknownCode(cs[0]))
    else
      match LabelsOf(cs[1..], table)
      case Success(rest) => Success({table[cs[0]]} + rest)
      case Failure(e) => Failure(e)
  }

  // ---------------------------------------------------------------------
  // Properties

  /** Exactly the codes 1 to 15 and 17 to 20 are defined; 16 is not. */
  lemma DefinedCodes(code: int)
    ensures code in Options <==> (1 <= code <= 15 || 17 <= code <= 20)
  {
  }

  /** Codes 17 and 18 collide, and they are the only pair that does. */
  lemma OnlyCollision(a: int, b: int)
    requires a in Options && b in Options && a < b
    ensures Options[a] == Options[b] <==> a == 17 && b == 18
  {
    DefinedCodes(a);
    DefinedCodes(b);
    if a != 17 || b != 18 {
      LabelsDiffer(a, b);
    }
  }

  lemma LabelsDiffer(a: int, b: int)
    requires a in Options && b in Options && a < b && (a != 17 || b != 18)
    ensures Options[a] != Options[b]
  {
    DefinedCodes(a);
    DefinedCodes(b);
  }

  /** The lookup succeeds exactly when every code has an entry, and otherwise reports the first that has none. */
  lemma {:induction false} LabelsOfFails(cs: seq<int>, table: map<int, string>)
    ensures LabelsOf(cs, table).Success? <==> forall i :: 0 <= i < |cs| ==> cs[i] in table
    ensures LabelsOf(cs, table).Failure? ==>
      exists i :: FirstUndefined(cs, table, i) && LabelsOf(cs, table).error == UnknownCode(cs[i])
    decreases |cs|
  {
    if |cs| > 0 {
      LabelsOfFails(cs[1..], table);
      if cs[0] !in table {
        assert FirstUndefined(cs, table, 0);
      } else if LabelsOf(cs[1..], table).Failure? {
        var i :| FirstUndefined(cs[1..], table, i) && LabelsOf(cs[1..], table).error == UnknownCode(cs[1..][i]);
        assert FirstUndefined(cs, table, i + 1) by {
          forall j | 0 <= j < i + 1 ensures cs[j] in table {
            if j > 0 {
              assert cs[j] == cs[1..][j - 1];
            }
          }
        }
      } else {
        forall i | 0 <= i < |cs| ensures cs[i] in table {
          if i > 0 {
            assert cs[i] == cs[1..][i - 1];
          }
        }
      }
    }
  }

  ghost predicate FirstUndefined(cs: seq<int>, table: map<int, string>, i: int)
  {
    0 <= i < |cs| && cs[i] !in table && forall j :: 0 <= j < i ==> cs[j] in table
  }

  /** On success the result holds the label of every code and nothing else, so it has at most as many elements as there are codes. */
  lemma {:induction false} LabelsOfContents(cs: seq<int>, table: map<int, string>)
    requires LabelsOf(cs, table).Success?
    ensures forall i :: 0 <= i < |cs| ==> cs[i] in table && table[cs[i]] in LabelsOf(cs, table).value
    ensures forall l :: l in LabelsOf(cs, table).value ==> exists i :: 0 <= i < |cs| && cs[i] in table && table[cs[i]] == l
    ensures |LabelsOf(cs, table).value| <= |cs|
    decreases |cs|
  {
    if |cs| > 0 {
      LabelsOfContents(cs[1..], table);
      var rest := LabelsOf(cs[1..], table).value;
      assert LabelsOf(cs, table).value == {table[cs[0]]} + rest;
      forall i | 0 < i < |cs| ensures cs[i] in table && table[cs[i]] in rest {
        assert cs[i] == cs[1..][i - 1];
      }
      forall l | l in rest ensures exists i :: 0 <= i < |cs| && cs[i] in table && table[cs[i]] == l {
        var i :| 0 <= i < |cs[1..]| && cs[1..][i] in table && table[cs[1..][i]] == l;
        assert cs[i + 1] == cs[1..][i];
      }
    }
  }

  /** Giving both 17 and 18 selects a single label: the set can be smaller than the list of codes. */
  lemma CollidingCodesSelectOneLabel()
    ensures SelectLabels(Some([17, 18])) == Success({"antiSMASH annotation"})
  {
    assert [17, 18][1..] == [18];
    assert [18][1..] == [];
    assert LabelsOf([], Options) == Success({});
    assert 18 in Options && Options[18] == "antiSMASH annotation";
    assert 17 in Options && Options[17] == "antiSMASH annotation";
    assert {"antiSMASH annotation"} + {} == {"antiSMASH annotation"};
    assert LabelsOf([18], Options) == Success({"antiSMASH annotation"});
  }
}

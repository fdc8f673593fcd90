/**
 * The text the downloader writes for each entity (download_assemblies.py,
 * `write_study_name_and_abstract`, `write_studies_file`, `write_samples_file`,
 * `write_analyses_file`, and the header rows written by `main`). Each writer
 * is the string it would write.
 */
module Rows {
  import opened Wrappers
  import opened Strings
  import opened Records
  import opened Cleaning

  /** A tab-separated summary row: the fields joined by '\t', then '\n'. */
  function TabRow(fields: seq<string>): string
  {
    Join(fields, '\t') + "\n"
  }

  /** The fields of a summary row: its text without the final newline, split on tabs. */
  function RowFields(row: string): seq<string>
    requires |row| > 0
  {
    Split(row[..|row| - 1], '\t')
  }

  predicate TabFree(fields: seq<string>)
  {
    forall i :: 0 <= i < |fields| ==> '\t' !in fields[i]
  }

  /** Python's `str()` of a value that may be None. */
  function PyStr(o: Option<string>): string
  {
    match o
    case None => "None"
    case Some(s) => s
  }

  function StudyFields(st: Study): seq<string>
  {
    [st.accession, st.bioproject, st.secondaryAccession, st.centreName,
     st.dataOrigination, st.lastUpdate, st.publicReleaseDate, st.samplesCount]
  }

  /** `write_studies_file`: one row of additional/1_studies.txt. */
  function StudiesRow(st: Study): string
  {
    TabRow(StudyFields(st))
  }

  function SampleFields(sa: Sample): seq<string>
  {
    [sa.accession, Join(sa.studyAccessions, ';'), sa.sampleName, sa.sampleAlias,
     PyStr(CleanSampleDesc(sa.sampleDesc)), sa.biomeLineage, sa.environmentBiome,
     sa.environmentFeature, sa.environmentMaterial, sa.geoLocName, sa.latitude,
     sa.longitude, sa.analysisCompleted, sa.lastUpdate, PyStr(CleanSpecies(sa.species)),
     sa.hostTaxId]
  }

  /** `write_samples_file`: one row of additional/2_samples.txt. */
  function SamplesRow(sa: Sample): string
  {
    TabRow(SampleFields(sa))
  }

  function AnalysisFields(a: Analysis): seq<string>
  {
    [a.accession, a.assemblyAccession, a.sample.accession, a.study.accession,
     a.pipelineVersion, a.completeTime]
  }

  /** `write_analyses_file`: one row of additional/4_analyses.txt. */
  function AnalysesRow(a: Analysis): string
  {
    TabRow(AnalysisFields(a))
  }

  const StudiesHeaderFields: seq<string> :=
    ["study.accession", "study.bioproject", "study.secondary_accession", "study.centre_name",
     "study.data_origination", "study.last_update", "study.public_release_date",
     "study.samples_count"]

  const SamplesHeaderFields: seq<string> :=
    ["sample.accession", "';'.join(" + "[study.accession " + "for study " + "in sample.studies])",
     "sample.sample_name", "sample.sample_alias", "sample.sample_desc", "sample.biome.lineage",
     "sample.environment_biome", "sample.environment_feature", "sample.environment_material",
     "sample.geo_loc_name", "sample.latitude", "sample.longitude", "sample.analysis_completed",
     "sample.last_update", "sample.species", "sample.host_tax_id"]

  const AnalysesHeaderFields: seq<string> :=
    ["analysis.accession", "analysis.assembly.accession", "analysis.sample.accession",
     "analysis.study.accession", "analysis.pipeline_version", "analysis.complete_time"]

  /** The header rows `main` writes when it creates the three summary files. */
  const StudiesHeader: string := TabRow(StudiesHeaderFields)
  const SamplesHeader: string := TabRow(SamplesHeaderFields)
  const AnalysesHeader: string := TabRow(AnalysesHeaderFields)

  /** `write_study_name_and_abstract`: the two lines of a study's name-and-abstract file. */
  function NameAndAbstract(st: Study): string
  {
    Terminated(["name: " + st.studyName, "abstract: " + st.studyAbstract], '\n')
  }

  const StudyDir: string := "studies_name_and_abstract/"
  const StudySuffix: string := ".name_and_abstract"
  const SampleDir: string := "samples_metadata/"
  const SampleSuffix: string := ".metadata"

  /** Where a study's name and abstract go. */
  function StudyPath(accession: string): string
  {
    StudyDir + accession + StudySuffix
  }

  /** Where a sample's metadata goes. */
  function SamplePath(accession: string): string
  {
    SampleDir + accession + SampleSuffix
  }

  // ---------------------------------------------------------------------
  // Properties

  /** A row ends in a newline, and its fields can be read back when none of them holds a tab. */
  lemma TabRowFields(fields: seq<string>)
    requires |fields| >= 1
    ensures |TabRow(fields)| > 0 && TabRow(fields)[|TabRow(fields)| - 1] == '\n'
    ensures |fields| > 1 ==> fields[0] + "\t" <= TabRow(fields)
    ensures TabFree(fields) ==> RowFields(TabRow(fields)) == fields
  {
    var row := TabRow(fields);
    assert row[..|row| - 1] == Join(fields, '\t');
    JoinStartsWith(fields, '\t');
    if TabFree(fields) {
      SplitJoin(fields, '\t');
    }
  }

  /** A studies row starts with the study accession, ends in '\n' and has 8 fields. */
  lemma StudiesRowShape(st: Study)
    ensures var row := StudiesRow(st);
      && row[|row| - 1] == '\n'
      && st.accession + "\t" <= row
    ensures TabFree(StudyFields(st)) ==>
      var fs := RowFields(StudiesRow(st));
      |fs| == 8 && fs[0] == st.accession && fs[7] == st.samplesCount
  {
    TabRowFields(StudyFields(st));
  }

  /**
   * A samples row starts with the sample accession, ends in '\n' and has 16 fields;
   * the second is the ';'-join of the sample's study accessions, which reads back as
   * those accessions when none holds a ';'; description and species are cleaned.
   */
  lemma SamplesRowShape(sa: Sample)
    ensures var row := SamplesRow(sa);
      && row[|row| - 1] == '\n'
      && sa.accession + "\t" <= row
    ensures TabFree(SampleFields(sa)) ==>
      var fs := RowFields(SamplesRow(sa));
      && |fs| == 16
      && fs[0] == sa.accession
      && fs[1] == Join(sa.studyAccessions, ';')
      && fs[4] == PyStr(CleanSampleDesc(sa.sampleDesc))
      && fs[14] == PyStr(CleanSpecies(sa.species))
    ensures |sa.studyAccessions| > 0 && (forall i :: 0 <= i < |sa.studyAccessions| ==> ';' !in sa.studyAccessions[i]) ==>
      Split(SampleFields(sa)[1], ';') == sa.studyAccessions
  {
    TabRowFields(SampleFields(sa));
    if |sa.studyAccessions| > 0 && (forall i :: 0 <= i < |sa.studyAccessions| ==> ';' !in sa.studyAccessions[i]) {
      SplitJoin(sa.studyAccessions, ';');
    }
  }

  /** An analyses row has 6 fields: the analysis, its assembly, sample and study accessions, version and time. */
  lemma AnalysesRowShape(a: Analysis)
    ensures var row := AnalysesRow(a);
      && row[|row| - 1] == '\n'
      && a.accession + "\t" <= row
    ensures TabFree(AnalysisFields(a)) ==>
      var fs := RowFields(AnalysesRow(a));
      && |fs| == 6
      && fs[..4] == [a.accession, a.assemblyAccession, a.sample.accession, a.study.accession]
  {
    TabRowFields(AnalysisFields(a));
  }

  /** The studies header names the 8 fields of a studies row. */
  lemma StudiesHeaderShape()
    ensures RowFields(StudiesHeader) == StudiesHeaderFields && |StudiesHeaderFields| == 8
  {
    assert TabFree(StudiesHeaderFields) by {
      forall i | 0 <= i < |StudiesHeaderFields| ensures '\t' !in StudiesHeaderFields[i] {
      }
    }
    TabRowFields(StudiesHeaderFields);
  }

  /** The samples header names the 16 fields of a samples row. */
  lemma SamplesHeaderShape()
    ensures RowFields(SamplesHeader) == SamplesHeaderFields && |SamplesHeaderFields| == 16
  {
    assert TabFree(SamplesHeaderFields) by {
      forall i | 0 <= i < |SamplesHeaderFields| ensures '\t' !in SamplesHeaderFields[i] {
      }
    }
    TabRowFields(SamplesHeaderFields);
  }

  /** The analyses header names the 6 fields of a analyses row. */
  lemma AnalysesHeaderShape()
    ensures RowFields(AnalysesHeader) == AnalysesHeaderFields && |AnalysesHeaderFields| == 6
  {
    assert TabFree(AnalysesHeaderFields) by {
      forall i | 0 <= i < |AnalysesHeaderFields| ensures '\t' !in AnalysesHeaderFields[i] {
      }
    }
    TabRowFields(AnalysesHeaderFields);
  }

  /** The name-and-abstract file holds the two lines `name: ...` and `abstract: ...`. */
  lemma NameAndAbstractLines(st: Study)
    requires '\n' !in st.studyName && '\n' !in st.studyAbstract
    ensures Split(NameAndAbstract(st), '\n') == ["name: " + st.studyName, "abstract: " + st.studyAbstract, ""]
  {
    SplitTerminated(["name: " + st.studyName, "abstract: " + st.studyAbstract], '\n');
  }

  /** Distinct accessions get distinct per-entity files. */
  lemma PathsInjective(a: string, b: string)
    ensures StudyPath(a) == StudyPath(b) ==> a == b
    ensures SamplePath(a) == SamplePath(b) ==> a == b
  {
    if StudyPath(a) == StudyPath(b) {
      assert a == StudyPath(a)[|StudyDir|..|StudyPath(a)| - |StudySuffix|];
    }
    if SamplePath(a) == SamplePath(b) {
      assert a == SamplePath(a)[|SampleDir|..|SamplePath(a)| - |SampleSuffix|];
    }
  }
}

/**
 * The remote MGnify resources as the downloader sees them. Every attribute
 * that the summary rows print is held as the text Python's `str()` gives for
 * it; `sample_desc` and `species` keep Python's `None`, because the cleaning
 * functions treat it specially.
 */
module Records {
  import opened Wrappers

  /** One element of `sample.sample_metadata`: a dict with 'key', 'value' and 'unit' (which may be None). */
  datatype MetaEntry = MetaEntry(key: string, value: string, unit: Option<string>)

  datatype Study = Study(
    accession: string,
    bioproject: string,
    secondaryAccession: string,
    centreName: string,
    dataOrigination: string,
    lastUpdate: string,
    publicReleaseDate: string,
    samplesCount: string,
    studyName: string,
    studyAbstract: string)

  /** `studyAccessions` lists the accessions of `sample.studies` (a sample may belong to several studies). */
  datatype Sample = Sample(
    accession: string,
    studyAccessions: seq<string>,
    sampleName: string,
    sampleAlias: string,
    sampleDesc: Option<string>,
    biomeLineage: string,
    environmentBiome: string,
    environmentFeature: string,
    environmentMaterial: string,
    geoLocName: string,
    latitude: string,
    longitude: string,
    analysisCompleted: string,
    lastUpdate: string,
    species: Option<string>,
    hostTaxId: string,
    metadata: seq<MetaEntry>)

  /** One element of `analysis.downloads`: its id, its URL and `description.label`. */
  datatype Artifact = Artifact(id: string, url: string, descriptionLabel: string)

  /** An analysis resource with its embedded sample and study relations. */
  datatype Analysis = Analysis(
    accession: string,
    assemblyAccession: string,
    sample: Sample,
    study: Study,
    pipelineVersion: string,
    completeTime: string,
    downloads: seq<Artifact>)
}

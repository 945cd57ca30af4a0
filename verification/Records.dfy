/** Source and manifest records shared by the catalog, the planner and the chunker (models.py). */
module Records {
  import opened Common
  import opened Digest

  datatype Source = Source(
    kbId: string,
    sourceId: string,
    relativePath: string,
    mediaType: string,
    sizeBytes: int,
    mtimeNs: int,
    sha256: string)

  datatype GenerationState = Building | Staged | Published | Available | Failed

  datatype ManifestDocument = ManifestDocument(
    generationId: string,
    generationState: GenerationState,
    kbId: string,
    sourceId: string,
    relativePath: string,
    mediaType: string,
    sizeBytes: int,
    mtimeNs: int,
    contentSha256: string,
    pipeline: Pipeline,
    chunkCount: int)
}

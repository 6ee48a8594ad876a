/** The defaults of the backend's settings object that the modelled code reads. */
module Config {

  const DataDir: string := "data"
  const RawDocumentsDir: string := "data/raw"
  const SourcesRegistryPath: string := "data/sources_registry.jsonl"

  /** `raw_documents_dir` relative to `data_dir`: the directory prefix of every stored file path. */
  const RawDirUnderData: string := "raw"

  const ScrapeTimeoutSeconds: nat := 30
  const ScrapeMaxDepth: nat := 3
  const ScrapeMaxPagesPerCategory: nat := 50

  /** `use_llm_mode` defaults to false: the region analysis takes the deterministic branch. */
  const UseLlmMode: bool := false
}

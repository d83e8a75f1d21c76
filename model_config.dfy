/** The per-provider constant tables of config/modelConfig.ts, keyed by the service name. */
module ModelConfig {
  import opened Wrappers

  datatype EmbeddingServiceConfig = EmbeddingServiceConfig(
    textEmbeddingModel: string,
    documentSimilarityThreshold: real,
    metadataSimilarityThreshold: real)

  datatype CompletionServiceConfig = CompletionServiceConfig(chatCompletionModel: string)

  /** The four embedding providers a configuration may name. */
  const EmbeddingServices: set<string> := {"openai", "tensorflow", "glove", "miniLM"}

  /** The two completion backends a configuration may name. */
  const CompletionServices: set<string> := {"openai", "deepseek"}

  const EmbeddingServiceConfigs: map<string, EmbeddingServiceConfig> := map[
    "openai" := EmbeddingServiceConfig("text-embedding-3-small", 0.6, 0.4),
    "tensorflow" := EmbeddingServiceConfig("tensorflow-embedding-model", 0.3, 0.4),
    "glove" := EmbeddingServiceConfig("glove-embedding", 0.2, 0.2),
    "miniLM" := EmbeddingServiceConfig("all-MiniLM-L6-v2", 0.5, 0.7)
  ]

  const CompletionServiceConfigs: map<string, CompletionServiceConfig> := map[
    "openai" := CompletionServiceConfig("gpt-4o"),
    "deepseek" := CompletionServiceConfig("deepseek-chat")
  ]

  /** `embeddingServiceConfigs[service]`: `None` stands for the `undefined` of a name outside the table. */
  function EmbeddingConfigFor(service: string): (r: Option<EmbeddingServiceConfig>)
    ensures r.Some? <==> service in EmbeddingServices
    ensures r.Some? ==> 0.0 <= r.value.documentSimilarityThreshold <= 1.0
    ensures r.Some? ==> 0.0 <= r.value.metadataSimilarityThreshold <= 1.0
  {
    if service in EmbeddingServiceConfigs then Some(EmbeddingServiceConfigs[service]) else None
  }

  /** `completionServiceConfigs[service]`. */
  function CompletionConfigFor(service: string): (r: Option<CompletionServiceConfig>)
    ensures r.Some? <==> service in CompletionServices
  {
    if service in CompletionServiceConfigs then Some(CompletionServiceConfigs[service]) else None
  }

  /** Each embedding service has exactly one entry, and no other name has one. */
  lemma EmbeddingTableIsTotal()
    ensures EmbeddingServiceConfigs.Keys == EmbeddingServices
    ensures CompletionServiceConfigs.Keys == CompletionServices
  {
  }

  /** The six thresholds are these exact constants. */
  lemma Thresholds()
    ensures EmbeddingServiceConfigs["openai"].documentSimilarityThreshold == 0.6
    ensures EmbeddingServiceConfigs["openai"].metadataSimilarityThreshold == 0.4
    ensures EmbeddingServiceConfigs["tensorflow"].documentSimilarityThreshold == 0.3
    ensures EmbeddingServiceConfigs["tensorflow"].metadataSimilarityThreshold == 0.4
    ensures EmbeddingServiceConfigs["glove"].documentSimilarityThreshold == 0.2
    ensures EmbeddingServiceConfigs["glove"].metadataSimilarityThreshold == 0.2
    ensures EmbeddingServiceConfigs["miniLM"].documentSimilarityThreshold == 0.5
    ensures EmbeddingServiceConfigs["miniLM"].metadataSimilarityThreshold == 0.7
  {
  }

  /** The completion models are `gpt-4o` for openai and `deepseek-chat` for deepseek. */
  lemma CompletionModels()
    ensures CompletionServiceConfigs["openai"].chatCompletionModel == "gpt-4o"
    ensures CompletionServiceConfigs["deepseek"].chatCompletionModel == "deepseek-chat"
  {
  }
}

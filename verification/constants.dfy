/** The numeric constants of the research pipeline and of the request validator. */
module Constants {
  // Network requests
  const DEFAULT_TIMEOUT: int := 4

  // Concurrency and content filtering
  const DEFAULT_CONCURRENCY_LIMIT: int := 5
  const DEFAULT_MAX_WORKERS: int := 20
  const MIN_CONTENT_LENGTH: int := 100

  // Search and retrieval
  const DEFAULT_MAX_SEARCH_RESULTS_PER_QUERY: int := 5
  const DEFAULT_MAX_ITERATIONS: int := 5
  const DEFAULT_MAX_SUBTOPICS: int := 5

  // Request validation
  const MIN_QUERY_LENGTH: int := 3
  const MAX_ITERATIONS_LIMIT: int := 10
  const MAX_SUBTOPICS_LIMIT: int := 10
  const MAX_SEARCH_RESULTS_LIMIT: int := 20
  const MIN_ITERATIONS: int := 1
  const MIN_SUBTOPICS: int := 1
  const MIN_SEARCH_RESULTS: int := 1
}

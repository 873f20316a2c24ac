/**
 * The settings `PatentSearchUtils.__init__` copies out of its configuration and that
 * the modelled operations use. They are never changed after construction.
 */
module PatentConfig {

  datatype Settings = Settings(
    publicationFrom: string,  // defaults.publication_from: the fallback lower date bound
    batchSize: int,           // defaults.batch_size: texts per embedding request
    projectId: string,        // bigquery.project_id
    dataset: string,          // bigquery.dataset
    table: string,            // bigquery.table
    limit: int                // bigquery.limit: the row cap of every statement
  )
}

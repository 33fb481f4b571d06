/**
 * Names of the deployment the scripts refer to: the test configuration's constants, and
 * the catalog database, results location and topic the other scripts spell out inline.
 */
module Config {
  const S3Bucket := "parking-monitoring-data"
  const LambdaFunction := "dev-parking-processor"
  const GlueDatabase := "dev_parking_analytics"
  const AthenaWorkgroup := "dev-parking-analytics"
  const KafkaTopic := "parking-events"

  /** The catalog database the setup, analytics and flow scripts use. */
  const CatalogDatabase := "parking_analytics"

  /** Where query results are written. */
  const ResultsLocation := "s3://" + S3Bucket + "/athena-results/"
}

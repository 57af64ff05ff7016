/**
 * The metric snapshot the monitoring code reads (SystemMetrics). Java's doubles are
 * read as exact reals; the connection counts are Java `int`s.
 */
module Metrics {
  import opened JavaInt

  datatype SystemMetrics = SystemMetrics(
    cpuUsage: real,
    memoryUsagePercent: real,
    httpRequestMeanTime: real,
    httpRequestMaxTime: real,
    dbConnectionActive: Int32,
    dbConnectionMax: Int32)
}

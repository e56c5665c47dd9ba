/** The collector's side effects, recorded as a log: the InfluxDB write API,
    the relational insert, the one-time schema initialisation and the sleep
    between cycles.  The clients themselves are not modelled. */
module Sinks {
  import opened Json
  import opened Probes

  datatype Event =
    | PostgresInit                                      // postgres_init()
    | Sleep                                             // asyncio.sleep(refresh interval)
    | InfluxWrite(bucket: string, org: string, point: Point)  // write_api.write(bucket=, org=, record=)
    | PostgresInsert(table: string, rows: seq<Json>)    // relational insert of one result's rows

  predicate IsInit(e: Event) { e.PostgresInit? }
  predicate IsSleep(e: Event) { e.Sleep? }
  predicate IsWrite(e: Event) { e.InfluxWrite? }
  predicate IsInsert(e: Event) { e.PostgresInsert? }
}

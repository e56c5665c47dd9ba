/** What a scalar metric probe sends and how it reduces the answer to one
    InfluxDB point (the shared shape of fetcher/metrics/threats.py, agents.py
    and apps.py). */
module Probes {
  import opened Results
  import opened Json

  /** What `fetch_json` hands back: the HTTP status and the decoded body. */
  datatype Response = Response(status: int, body: Json)

  /** A scalar probe: the measurement it reports, and the request it sends
      (a path below the configured API base URL, and the query parameters). */
  datatype Probe = Probe(measurement: string, path: string, params: map<string, string>)

  /** `Point(measurement).field("value", value)`. */
  datatype Point = Point(measurement: string, value: Json)

  /** `data.get("pagination", {}).get("totalItems", 0)`. */
  function CountOf(body: Json): (r: Result<Json>)
    ensures r.Ok? <==> body.JObj? && ("pagination" in body.fields ==> body.fields["pagination"].JObj?)
    ensures r.Ok? && "pagination" in body.fields && "totalItems" in body.fields["pagination"].fields
            ==> r.value == body.fields["pagination"].fields["totalItems"]
    ensures r.Ok? && !("pagination" in body.fields && "totalItems" in body.fields["pagination"].fields)
            ==> r.value == JInt(0)
  {
    var pagination :- DictGet(body, "pagination", JObj(map[]));
    DictGet(pagination, "totalItems", JInt(0))
  }

  /** The point a probe reports for one response: its own measurement name,
      and the body's `pagination.totalItems`, which is 0 when either key is
      missing.  A body that is not an object, or whose `pagination` is not an
      object, raises. */
  function Measure(p: Probe, resp: Response): (r: Result<Point>)
    ensures r.Ok? <==> resp.body.JObj? &&
                       ("pagination" in resp.body.fields ==> resp.body.fields["pagination"].JObj?)
    ensures r.Ok? ==> r.value.measurement == p.measurement
    ensures r.Ok? && "pagination" in resp.body.fields && "totalItems" in resp.body.fields["pagination"].fields
            ==> r.value.value == resp.body.fields["pagination"].fields["totalItems"]
    ensures r.Ok? && !("pagination" in resp.body.fields && "totalItems" in resp.body.fields["pagination"].fields)
            ==> r.value.value == JInt(0)
  {
    var total :- CountOf(resp.body);
    Ok(Point(p.measurement, total))
  }

  /** The status code plays no part in the result. */
  lemma StatusIgnored(p: Probe, r1: Response, r2: Response)
    requires r1.body == r2.body
    ensures Measure(p, r1) == Measure(p, r2)
  {
  }

  /** Pairwise distinct measurement names. */
  predicate DistinctNames(ps: seq<Probe>)
  {
    forall i, j :: 0 <= i < j < |ps| ==> ps[i].measurement != ps[j].measurement
  }
}

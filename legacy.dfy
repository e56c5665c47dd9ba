/** fetcher/fetchSentinelOne.py: the older single-file collector.  Its seven
    probes send the same requests as the packaged ones but report a missing
    count as `None`; its router writes every truthy result to the time-series
    sink, and its loop sleeps before every cycle without initialising any
    relational sink. */
module FetchSentinelOne {
  import opened Results
  import opened Json
  import opened Probes
  import opened Sinks
  import Threats
  import Agents

  /** `data.get("pagination", {}).get("totalItems")`: no default count. */
  function LegacyCountOf(body: Json): (r: Result<Json>)
    ensures r.Ok? <==> body.JObj? && ("pagination" in body.fields ==> body.fields["pagination"].JObj?)
    ensures r.Ok? && "pagination" in body.fields && "totalItems" in body.fields["pagination"].fields
            ==> r.value == body.fields["pagination"].fields["totalItems"]
    ensures r.Ok? && !("pagination" in body.fields && "totalItems" in body.fields["pagination"].fields)
            ==> r.value == JNull
  {
    var pagination :- DictGet(body, "pagination", JObj(map[]));
    DictGet(pagination, "totalItems", JNull)
  }

  /** A legacy probe's point: its measurement name and the body's
      `pagination.totalItems`, or `None` when either key is missing. */
  function LegacyMeasure(p: Probe, resp: Response): (r: Result<Point>)
    ensures r.Ok? <==> resp.body.JObj? &&
                       ("pagination" in resp.body.fields ==> resp.body.fields["pagination"].JObj?)
    ensures r.Ok? ==> r.value.measurement == p.measurement
    ensures r.Ok? && "pagination" in resp.body.fields && "totalItems" in resp.body.fields["pagination"].fields
            ==> r.value.value == resp.body.fields["pagination"].fields["totalItems"]
    ensures r.Ok? && !("pagination" in resp.body.fields && "totalItems" in resp.body.fields["pagination"].fields)
            ==> r.value.value == JNull
  {
    var total :- LegacyCountOf(resp.body);
    Ok(Point(p.measurement, total))
  }

  /** The legacy and the packaged probes agree whenever the count is present,
      fail on the same bodies, and differ only in the missing-count value. */
  lemma LegacyAgreesWhenPresent(p: Probe, resp: Response)
    ensures LegacyMeasure(p, resp).Ok? <==> Measure(p, resp).Ok?
    ensures LegacyMeasure(p, resp).Ok? && "pagination" in resp.body.fields
            && "totalItems" in resp.body.fields["pagination"].fields
            ==> LegacyMeasure(p, resp) == Measure(p, resp)
    ensures LegacyMeasure(p, resp).Ok? && !("pagination" in resp.body.fields
            && "totalItems" in resp.body.fields["pagination"].fields)
            ==> LegacyMeasure(p, resp).value.value == JNull && Measure(p, resp).value.value == JInt(0)
  {
  }

  /** The tasks of the legacy `fetch_all_and_write`, in order; `stamps(i)` is
      the clock reading of the i-th call. */
  function LegacyProbes(stamps: nat -> string): seq<Probe>
  {
    [Threats.ResolvedIncidentsLastWeek(stamps(0)), Threats.ResolvedTruePositivesLastWeek(stamps(1)),
     Threats.ResolvedFalsePositivesLastWeek(stamps(2)), Threats.TotalNumberIncidentsLastWeek(stamps(3)),
     Threats.UnresolvedIncidentsLastWeek(stamps(4)), Agents.AgentsInGlobalScope, Agents.AgentsRequiringAction]
  }

  /** Seven probes with pairwise distinct measurement names. */
  lemma LegacyProbeNames(stamps: nat -> string)
    ensures |LegacyProbes(stamps)| == 7
    ensures DistinctNames(LegacyProbes(stamps))
  {
  }

  /** A value a gathered task can hand the router: a point object, which is
      always truthy, or any falsy value. */
  datatype Returned = PointObject(point: Point) | FalsyValue

  /** One gathered result of the legacy collector. */
  datatype LegacyOutcome = Raised(cause: Error) | Value(v: Returned)

  predicate WrittenOut(o: LegacyOutcome) { o.Value? && o.v.PointObject? }

  function LegacySettle(p: Probe, reply: Result<Response>): LegacyOutcome
  {
    match reply
    case Err(e) => Raised(e)
    case Ok(resp) =>
      match LegacyMeasure(p, resp)
      case Err(e) => Raised(e)
      case Ok(pt) => Value(PointObject(pt))
  }

  /** `asyncio.gather(*tasks, return_exceptions=True)`, in task order. */
  function LegacyGather(probes: seq<Probe>, replies: nat -> Result<Response>): seq<LegacyOutcome>
  {
    seq(|probes|, i requires 0 <= i < |probes| => LegacySettle(probes[i], replies(i)))
  }

  /** One result per task; a task raises exactly when its request or its
      reduction did; the probes never hand back a falsy value. */
  lemma LegacyGatherFacts(probes: seq<Probe>, replies: nat -> Result<Response>)
    ensures |LegacyGather(probes, replies)| == |probes|
    ensures forall i :: 0 <= i < |probes| ==>
      (LegacyGather(probes, replies)[i].Raised? <==> replies(i).Err? || LegacyMeasure(probes[i], replies(i).value).Err?)
    ensures forall i :: 0 <= i < |probes| && !LegacyGather(probes, replies)[i].Raised? ==>
      LegacyGather(probes, replies)[i] == Value(PointObject(LegacyMeasure(probes[i], replies(i).value).value))
  {
  }

  /** The writes one result causes: none for an exception or a falsy value. */
  function LegacyEventsFor(o: LegacyOutcome, bucket: string, org: string): seq<Event>
  {
    match o
    case Raised(_) => []
    case Value(FalsyValue) => []
    case Value(PointObject(p)) => [InfluxWrite(bucket, org, p)]
  }

  function LegacyRoute(outs: seq<LegacyOutcome>, bucket: string, org: string): seq<Event>
    decreases |outs|
  {
    if outs == [] then []
    else LegacyRoute(outs[..|outs| - 1], bucket, org) + LegacyEventsFor(outs[|outs| - 1], bucket, org)
  }

  lemma {:induction false} LegacyRouteAppend(a: seq<LegacyOutcome>, b: seq<LegacyOutcome>, bucket: string, org: string)
    ensures LegacyRoute(a + b, bucket, org) == LegacyRoute(a, bucket, org) + LegacyRoute(b, bucket, org)
    decreases |b|
  {
    if b == [] {
      assert a + b == a;
    } else {
      assert (a + b)[..|a + b| - 1] == a + b[..|b| - 1];
      LegacyRouteAppend(a, b[..|b| - 1], bucket, org);
    }
  }

  /** Exactly the truthy points are written, each once. */
  lemma {:induction false} LegacyRouteLength(outs: seq<LegacyOutcome>, bucket: string, org: string)
    ensures |LegacyRoute(outs, bucket, org)| == Count(outs, WrittenOut)
    decreases |outs|
  {
    if outs != [] {
      LegacyRouteLength(outs[..|outs| - 1], bucket, org);
    }
  }

  /** The write for a truthy point at position i follows the writes of the
      truthy points before it, tagged with the configured bucket and org. */
  lemma LegacyRoutePosition(outs: seq<LegacyOutcome>, bucket: string, org: string, i: nat)
    requires i < |outs| && WrittenOut(outs[i])
    ensures Count(outs[..i], WrittenOut) < |LegacyRoute(outs, bucket, org)|
    ensures LegacyRoute(outs, bucket, org)[Count(outs[..i], WrittenOut)] == InfluxWrite(bucket, org, outs[i].v.point)
  {
    assert outs == outs[..i] + [outs[i]] + outs[i + 1..];
    LegacyRouteAppend(outs[..i] + [outs[i]], outs[i + 1..], bucket, org);
    LegacyRouteAppend(outs[..i], [outs[i]], bucket, org);
    LegacyRouteLength(outs[..i], bucket, org);
    assert LegacyRoute([outs[i]], bucket, org) == LegacyEventsFor(outs[i], bucket, org);
  }

  /** The router only ever writes points, and never sleeps or initialises. */
  lemma {:induction false} LegacyRouteOnlyWrites(outs: seq<LegacyOutcome>, bucket: string, org: string)
    ensures forall e :: e in LegacyRoute(outs, bucket, org) ==> e.InfluxWrite? && e.bucket == bucket && e.org == org
    decreases |outs|
  {
    if outs != [] {
      LegacyRouteOnlyWrites(outs[..|outs| - 1], bucket, org);
    }
  }

  /** A falsy value causes no write at all. */
  lemma FalsyNotWritten(outs: seq<LegacyOutcome>, bucket: string, org: string)
    ensures LegacyRoute(outs + [Value(FalsyValue)], bucket, org) == LegacyRoute(outs, bucket, org)
  {
    assert (outs + [Value(FalsyValue)])[..|outs|] == outs;
  }

  /** One tick's inputs: the clock readings and replies of its seven probes. */
  datatype LegacyCycle = LegacyCycle(stamps: nat -> string, replies: nat -> Result<Response>)

  function LegacyTick(c: LegacyCycle): seq<LegacyOutcome>
  {
    LegacyGather(LegacyProbes(c.stamps), c.replies)
  }

  /** The log of a run: before every cycle, including the first, a sleep. */
  function LegacyRunEvents(cycles: seq<LegacyCycle>, bucket: string, org: string): seq<Event>
    decreases |cycles|
  {
    if cycles == [] then []
    else LegacyRunEvents(cycles[..|cycles| - 1], bucket, org) + [Sleep]
         + LegacyRoute(LegacyTick(cycles[|cycles| - 1]), bucket, org)
  }

  lemma LegacyRunEventsStep(cycles: seq<LegacyCycle>, k: nat, bucket: string, org: string)
    requires k < |cycles|
    ensures LegacyRunEvents(cycles[..k + 1], bucket, org)
      == LegacyRunEvents(cycles[..k], bucket, org) + [Sleep] + LegacyRoute(LegacyTick(cycles[k]), bucket, org)
  {
    assert cycles[..k + 1][..k] == cycles[..k];
  }

  /** A legacy run never initialises or inserts into a relational sink, and
      sleeps once per cycle. */
  lemma {:induction false} LegacyRunCounts(cycles: seq<LegacyCycle>, bucket: string, org: string)
    ensures Count(LegacyRunEvents(cycles, bucket, org), IsInit) == 0
    ensures Count(LegacyRunEvents(cycles, bucket, org), IsInsert) == 0
    ensures Count(LegacyRunEvents(cycles, bucket, org), IsSleep) == |cycles|
    decreases |cycles|
  {
    if cycles != [] {
      var prev := cycles[..|cycles| - 1];
      var run := LegacyRunEvents(prev, bucket, org);
      var events := LegacyRoute(LegacyTick(cycles[|cycles| - 1]), bucket, org);
      LegacyRunCounts(prev, bucket, org);
      LegacyRouteOnlyWrites(LegacyTick(cycles[|cycles| - 1]), bucket, org);
      WritesOnlyCounts(events);
      assert LegacyRunEvents(cycles, bucket, org) == run + [Sleep] + events;
      SleepCounts(run, events);
    }
  }

  /** Counting across `run + [Sleep] + events`. */
  lemma SleepCounts(run: seq<Event>, events: seq<Event>)
    ensures Count(run + [Sleep] + events, IsInit) == Count(run, IsInit) + Count(events, IsInit)
    ensures Count(run + [Sleep] + events, IsInsert) == Count(run, IsInsert) + Count(events, IsInsert)
    ensures Count(run + [Sleep] + events, IsSleep) == Count(run, IsSleep) + 1 + Count(events, IsSleep)
  {
    CountAppend(run + [Sleep], events, IsInit);
    CountAppend(run, [Sleep], IsInit);
    CountAppend(run + [Sleep], events, IsInsert);
    CountAppend(run, [Sleep], IsInsert);
    CountAppend(run + [Sleep], events, IsSleep);
    CountAppend(run, [Sleep], IsSleep);
    assert [Sleep] == [] + [Sleep];
  }

  /** A legacy run that runs at all opens with a sleep: the first cycle
      waits a full interval too. */
  lemma {:induction false} LegacyRunStartsWithSleep(cycles: seq<LegacyCycle>, bucket: string, org: string)
    requires cycles != []
    ensures |LegacyRunEvents(cycles, bucket, org)| > 0
    ensures LegacyRunEvents(cycles, bucket, org)[0] == Sleep
    decreases |cycles|
  {
    var prev := cycles[..|cycles| - 1];
    if prev != [] {
      LegacyRunStartsWithSleep(prev, bucket, org);
    }
  }

  /** A log of writes holds nothing else. */
  lemma {:induction false} WritesOnlyCounts(es: seq<Event>)
    requires forall e :: e in es ==> e.InfluxWrite?
    ensures Count(es, IsInit) == 0 && Count(es, IsInsert) == 0 && Count(es, IsSleep) == 0
    decreases |es|
  {
    if es != [] {
      assert forall e :: e in es[..|es| - 1] ==> e in es;
      assert es[|es| - 1] in es;
      WritesOnlyCounts(es[..|es| - 1]);
    }
  }

  /** The legacy collector's time-series handle, as the log of its calls. */
  class LegacyCollector {
    const bucket: string
    const org: string
    var log: seq<Event>

    constructor (bucket: string, org: string)
      ensures this.bucket == bucket && this.org == org && log == []
    {
      this.bucket := bucket;
      this.org := org;
      log := [];
    }

    /** The legacy `fetch_all_and_write`: gather, then write the results. */
    method FetchAllAndWrite(c: LegacyCycle)
      modifies this
      ensures log == old(log) + LegacyRoute(LegacyTick(c), bucket, org)
    {
      var results := LegacyTick(c);
      WriteResults(results);
    }

    /** The `for` loop of the legacy `fetch_all_and_write`: skip exceptions,
        write every truthy result, in result order. */
    method WriteResults(results: seq<LegacyOutcome>)
      modifies this
      ensures log == old(log) + LegacyRoute(results, bucket, org)
    {
      var i := 0;
      while i < |results|
        invariant 0 <= i <= |results|
        invariant log == old(log) + LegacyRoute(results[..i], bucket, org)
      {
        assert results[..i + 1][..i] == results[..i];
        match results[i] {
          case Raised(_) =>
          case Value(v) =>
            if v.PointObject? {
              log := log + [InfluxWrite(bucket, org, v.point)];
            }
        }
        i := i + 1;
      }
      assert results[..i] == results;
    }

    /** The legacy `main_loop`, over the first `|cycles|` ticks: sleep, then
        run one cycle, with no initialisation step. */
    method MainLoop(cycles: seq<LegacyCycle>)
      modifies this
      ensures log == old(log) + LegacyRunEvents(cycles, bucket, org)
    {
      ghost var start := log;
      var k := 0;
      while k < |cycles|
        invariant 0 <= k <= |cycles|
        invariant log == start + LegacyRunEvents(cycles[..k], bucket, org)
      {
        ghost var run := LegacyRunEvents(cycles[..k], bucket, org);
        ghost var events := LegacyRoute(LegacyTick(cycles[k]), bucket, org);
        LegacyRunEventsStep(cycles, k, bucket, org);
        log := log + [Sleep];
        FetchAllAndWrite(cycles[k]);
        AppendAssoc(start, run + [Sleep], events);
        AppendAssoc(start, run, [Sleep]);
        k := k + 1;
      }
      assert cycles[..k] == cycles;
    }
  }
}

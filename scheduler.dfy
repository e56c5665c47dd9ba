/** fetcher/scheduler.py: one collection cycle (gather the ten probes, route
    every result to a sink) and the loop that repeats it after a one-time
    relational initialisation. */
module Scheduler {
  import opened Results
  import opened Json
  import opened Probes
  import opened Sinks
  import Threats
  import Agents
  import Apps

  /** The probes `fetch_all_and_write` starts, in task order.  `stamps(i)` is
      the clock reading taken by the i-th call (only the threat probes read
      it). */
  function ConfiguredProbes(stamps: nat -> string): seq<Probe>
  {
    Threats.ThreatProbes(stamps(0), stamps(1), stamps(2), stamps(3), stamps(4))
    + [Agents.AgentsInGlobalScope, Agents.AgentsRequiringAction,
       Apps.TotalApplications, Apps.TotalApplicationVulnerabilities, Apps.CriticalApplicationVulnerabilities]
  }

  /** Ten probes with pairwise distinct measurement names. */
  lemma ConfiguredProbeNames(stamps: nat -> string)
    ensures |ConfiguredProbes(stamps)| == 10
    ensures DistinctNames(ConfiguredProbes(stamps))
  {
  }

  /** One gathered result: an exception, a point, or a result that carries
      `to_postgres` and `table_name` (a table and its rows). */
  datatype Outcome = Failure(cause: Error) | Measured(point: Point) | Rows(table: string, rows: seq<Json>)

  predicate Failed(o: Outcome) { o.Failure? }
  predicate IsMeasured(o: Outcome) { o.Measured? }
  predicate IsRows(o: Outcome) { o.Rows? }

  /** What one probe's task settles to: the exception of its request or of
      its reduction, or its point. */
  function Settle(p: Probe, reply: Result<Response>): Outcome
  {
    match reply
    case Err(e) => Failure(e)
    case Ok(resp) =>
      match Measure(p, resp)
      case Err(e) => Failure(e)
      case Ok(pt) => Measured(pt)
  }

  /** `asyncio.gather(*tasks, return_exceptions=True)`: one result per task,
      in task order; `replies(i)` is what the i-th task's request got back.
      Interleaving is not modelled, only the order of the results. */
  function Gather(probes: seq<Probe>, replies: nat -> Result<Response>): seq<Outcome>
  {
    seq(|probes|, i requires 0 <= i < |probes| => Settle(probes[i], replies(i)))
  }

  /** A failure takes the place of its probe without disturbing the others:
      there is one result per probe, it fails exactly when the request or
      the reduction failed, and no configured probe yields rows. */
  lemma GatherFacts(probes: seq<Probe>, replies: nat -> Result<Response>)
    ensures |Gather(probes, replies)| == |probes|
    ensures forall i :: 0 <= i < |probes| ==>
      (Gather(probes, replies)[i].Failure? <==> replies(i).Err? || Measure(probes[i], replies(i).value).Err?)
    ensures forall i :: 0 <= i < |probes| && !Gather(probes, replies)[i].Failure? ==>
      Gather(probes, replies)[i] == Measured(Measure(probes[i], replies(i).value).value)
    ensures forall i :: 0 <= i < |probes| ==> !Gather(probes, replies)[i].Rows?
  {
  }

  /** The sink calls one result causes. */
  function EventsFor(o: Outcome, bucket: string, org: string): seq<Event>
  {
    match o
    case Failure(_) => []
    case Rows(table, rows) => [PostgresInsert(table, rows)]
    case Measured(p) => [InfluxWrite(bucket, org, p)]
  }

  /** The sink calls of the dispatch loop, in result order. */
  function Route(outs: seq<Outcome>, bucket: string, org: string): seq<Event>
    decreases |outs|
  {
    if outs == [] then []
    else Route(outs[..|outs| - 1], bucket, org) + EventsFor(outs[|outs| - 1], bucket, org)
  }

  /** Routing a concatenation routes each part in turn. */
  lemma {:induction false} RouteAppend(a: seq<Outcome>, b: seq<Outcome>, bucket: string, org: string)
    ensures Route(a + b, bucket, org) == Route(a, bucket, org) + Route(b, bucket, org)
    decreases |b|
  {
    if b == [] {
      assert a + b == a;
    } else {
      assert (a + b)[..|a + b| - 1] == a + b[..|b| - 1];
      RouteAppend(a, b[..|b| - 1], bucket, org);
    }
  }

  /** Every result except a failure causes exactly one call. */
  lemma {:induction false} RouteLength(outs: seq<Outcome>, bucket: string, org: string)
    ensures |Route(outs, bucket, org)| == |outs| - Count(outs, Failed)
    decreases |outs|
  {
    if outs != [] {
      RouteLength(outs[..|outs| - 1], bucket, org);
    }
  }

  /** The call for the i-th result comes right after the calls of the results
      before it: calls keep result order and none is lost. */
  lemma RoutePosition(outs: seq<Outcome>, bucket: string, org: string, i: nat)
    requires i < |outs| && !outs[i].Failure?
    ensures i - Count(outs[..i], Failed) < |Route(outs, bucket, org)|
    ensures Route(outs, bucket, org)[i - Count(outs[..i], Failed)] == EventsFor(outs[i], bucket, org)[0]
  {
    assert outs == outs[..i] + [outs[i]] + outs[i + 1..];
    RouteAppend(outs[..i] + [outs[i]], outs[i + 1..], bucket, org);
    RouteAppend(outs[..i], [outs[i]], bucket, org);
    RouteLength(outs[..i], bucket, org);
    assert Route([outs[i]], bucket, org) == EventsFor(outs[i], bucket, org);
  }

  /** The calls of one result, counted by kind. */
  lemma EventsForCounts(o: Outcome, bucket: string, org: string)
    ensures Count(EventsFor(o, bucket, org), IsWrite) == if o.Measured? then 1 else 0
    ensures Count(EventsFor(o, bucket, org), IsInsert) == if o.Rows? then 1 else 0
    ensures Count(EventsFor(o, bucket, org), IsInit) == 0
    ensures Count(EventsFor(o, bucket, org), IsSleep) == 0
  {
    var es := EventsFor(o, bucket, org);
    if es != [] {
      assert es[..0] == [];
    }
  }

  /** Points go to the time-series sink and rows to the relational sink,
      one call each. */
  lemma {:induction false} RouteCounts(outs: seq<Outcome>, bucket: string, org: string)
    ensures Count(Route(outs, bucket, org), IsWrite) == Count(outs, IsMeasured)
    ensures Count(Route(outs, bucket, org), IsInsert) == Count(outs, IsRows)
    decreases |outs|
  {
    if outs != [] {
      var prev := outs[..|outs| - 1];
      var last := EventsFor(outs[|outs| - 1], bucket, org);
      RouteCounts(prev, bucket, org);
      assert Route(outs, bucket, org) == Route(prev, bucket, org) + last;
      CountAppend(Route(prev, bucket, org), last, IsWrite);
      CountAppend(Route(prev, bucket, org), last, IsInsert);
      assert outs == prev + [outs[|outs| - 1]];
      CountAppend(prev, [outs[|outs| - 1]], IsMeasured);
      CountAppend(prev, [outs[|outs| - 1]], IsRows);
      EventsForCounts(outs[|outs| - 1], bucket, org);
    }
  }

  /** Routing never initialises the relational sink or sleeps, and every
      time-series write carries the configured bucket and org. */
  lemma {:induction false} RouteOnlyWrites(outs: seq<Outcome>, bucket: string, org: string)
    ensures Count(Route(outs, bucket, org), IsInit) == 0
    ensures Count(Route(outs, bucket, org), IsSleep) == 0
    ensures forall e :: e in Route(outs, bucket, org) && e.InfluxWrite? ==> e.bucket == bucket && e.org == org
    decreases |outs|
  {
    if outs != [] {
      var prev := outs[..|outs| - 1];
      var last := EventsFor(outs[|outs| - 1], bucket, org);
      RouteOnlyWrites(prev, bucket, org);
      assert Route(outs, bucket, org) == Route(prev, bucket, org) + last;
      CountAppend(Route(prev, bucket, org), last, IsInit);
      CountAppend(Route(prev, bucket, org), last, IsSleep);
      EventsForCounts(outs[|outs| - 1], bucket, org);
    }
  }

  /** One tick's inputs: the clock readings and replies of its probes. */
  datatype Cycle = Cycle(stamps: nat -> string, replies: nat -> Result<Response>)

  /** What one cycle gathers. */
  function Tick(c: Cycle): seq<Outcome>
  {
    Gather(ConfiguredProbes(c.stamps), c.replies)
  }

  /** In a cycle of the configured tasks every probe that did not fail is
      written once, to the configured bucket and org, in probe order. */
  lemma CycleWritesEverySuccess(c: Cycle, bucket: string, org: string)
    ensures |Tick(c)| == 10
    ensures |Route(Tick(c), bucket, org)| == 10 - Count(Tick(c), Failed)
    ensures forall i :: 0 <= i < |Tick(c)| ==> !Tick(c)[i].Rows?
    ensures forall i :: 0 <= i < |Tick(c)| && Tick(c)[i].Measured? ==>
      i - Count(Tick(c)[..i], Failed) < |Route(Tick(c), bucket, org)| &&
      Route(Tick(c), bucket, org)[i - Count(Tick(c)[..i], Failed)]
        == InfluxWrite(bucket, org, Tick(c)[i].point)
  {
    var outs := Tick(c);
    GatherFacts(ConfiguredProbes(c.stamps), c.replies);
    RouteLength(outs, bucket, org);
    RouteWritesEveryPoint(outs, bucket, org);
  }

  /** Every point is written, with its own value, right after the calls
      for the successful results before it. */
  lemma RouteWritesEveryPoint(outs: seq<Outcome>, bucket: string, org: string)
    ensures forall i :: 0 <= i < |outs| && outs[i].Measured? ==>
      i - Count(outs[..i], Failed) < |Route(outs, bucket, org)| &&
      Route(outs, bucket, org)[i - Count(outs[..i], Failed)] == InfluxWrite(bucket, org, outs[i].point)
  {
    forall i | 0 <= i < |outs| && outs[i].Measured?
      ensures i - Count(outs[..i], Failed) < |Route(outs, bucket, org)|
      ensures Route(outs, bucket, org)[i - Count(outs[..i], Failed)] == InfluxWrite(bucket, org, outs[i].point)
    {
      RoutePosition(outs, bucket, org, i);
    }
  }

  /** The log of a run of ticks: each sleeps, then runs one cycle. */
  function RunEvents(cycles: seq<Cycle>, bucket: string, org: string): seq<Event>
    decreases |cycles|
  {
    if cycles == [] then []
    else RunEvents(cycles[..|cycles| - 1], bucket, org) + [Sleep]
         + Route(Tick(cycles[|cycles| - 1]), bucket, org)
  }

  lemma RunEventsStep(cycles: seq<Cycle>, k: nat, bucket: string, org: string)
    requires k < |cycles|
    ensures RunEvents(cycles[..k + 1], bucket, org)
      == RunEvents(cycles[..k], bucket, org) + [Sleep] + Route(Tick(cycles[k]), bucket, org)
  {
    assert cycles[..k + 1][..k] == cycles[..k];
  }

  /** A run sleeps once per cycle and never initialises. */
  lemma {:induction false} RunEventsCounts(cycles: seq<Cycle>, bucket: string, org: string)
    ensures Count(RunEvents(cycles, bucket, org), IsInit) == 0
    ensures Count(RunEvents(cycles, bucket, org), IsSleep) == |cycles|
    decreases |cycles|
  {
    if cycles != [] {
      var prev := cycles[..|cycles| - 1];
      var run := RunEvents(prev, bucket, org);
      var events := Route(Tick(cycles[|cycles| - 1]), bucket, org);
      RunEventsCounts(prev, bucket, org);
      RouteOnlyWrites(Tick(cycles[|cycles| - 1]), bucket, org);
      assert RunEvents(cycles, bucket, org) == run + [Sleep] + events;
      CountAppend(run + [Sleep], events, IsInit);
      CountAppend(run, [Sleep], IsInit);
      CountAppend(run + [Sleep], events, IsSleep);
      CountAppend(run, [Sleep], IsSleep);
      assert [Sleep] == [] + [Sleep];
    }
  }

  /** Initialisation happens once, first; there is one sleep per cycle. */
  lemma InitOnceThenCycles(cycles: seq<Cycle>, bucket: string, org: string)
    ensures ([PostgresInit] + RunEvents(cycles, bucket, org))[0] == PostgresInit
    ensures Count([PostgresInit] + RunEvents(cycles, bucket, org), IsInit) == 1
    ensures Count([PostgresInit] + RunEvents(cycles, bucket, org), IsSleep) == |cycles|
  {
    var run := RunEvents(cycles, bucket, org);
    RunEventsCounts(cycles, bucket, org);
    CountAppend([PostgresInit], run, IsInit);
    CountAppend([PostgresInit], run, IsSleep);
    assert [PostgresInit] == [] + [PostgresInit];
  }

  /** The process-wide sink handles, as the log of the calls made on them. */
  class Collector {
    const bucket: string
    const org: string
    var log: seq<Event>

    constructor (bucket: string, org: string)
      ensures this.bucket == bucket && this.org == org && log == []
    {
      this.bucket := bucket;
      this.org := org;
      log := [];
    }

    /** `fetch_all_and_write`: gather, then route the results. */
    method FetchAllAndWrite(c: Cycle)
      modifies this
      ensures log == old(log) + Route(Tick(c), bucket, org)
    {
      var results := Tick(c);
      RouteResults(results);
    }

    /** The `for` loop of `fetch_all_and_write` over the gathered results:
        one sink call per non-failed result, in result order. */
    method RouteResults(results: seq<Outcome>)
      modifies this
      ensures log == old(log) + Route(results, bucket, org)
    {
      var i := 0;
      while i < |results|
        invariant 0 <= i <= |results|
        invariant log == old(log) + Route(results[..i], bucket, org)
      {
        assert results[..i + 1][..i] == results[..i];
        match results[i] {
          case Failure(_) =>
          case Rows(table, rows) =>
            log := log + [PostgresInsert(table, rows)];
          case Measured(p) =>
            log := log + [InfluxWrite(bucket, org, p)];
        }
        i := i + 1;
      }
      assert results[..i] == results;
    }

    /** `main_loop`, over the first `|cycles|` ticks of a run that never
        ends: initialise the relational sink once, then sleep and run one
        cycle, again and again. */
    method MainLoop(cycles: seq<Cycle>)
      modifies this
      ensures log == old(log) + [PostgresInit] + RunEvents(cycles, bucket, org)
    {
      log := log + [PostgresInit];
      ghost var start := log;
      var k := 0;
      while k < |cycles|
        invariant 0 <= k <= |cycles|
        invariant log == start + RunEvents(cycles[..k], bucket, org)
      {
        ghost var run := RunEvents(cycles[..k], bucket, org);
        ghost var events := Route(Tick(cycles[k]), bucket, org);
        RunEventsStep(cycles, k, bucket, org);
        log := log + [Sleep];
        FetchAllAndWrite(cycles[k]);
        AppendAssoc(start, run + [Sleep], events);
        AppendAssoc(start, run, [Sleep]);
        k := k + 1;
      }
      assert cycles[..k] == cycles;
    }
  }
}

/** fetcher/metrics/threats.py: the five threat-count probes over the last
    seven days. */
module Threats {
  import opened Strings
  import opened Probes

  const ThreatsPath := "/web/api/v2.1/threats"

  /** `seven_days_ago_iso()`.  The wall clock is not modelled: `stamp` is the
      `isoformat()` of "now minus seven days" read at the moment of the call,
      and its UTC offset `+00:00` is rewritten to `Z`. */
  function SevenDaysAgoIso(stamp: string): (r: string)
    ensures '+' !in stamp ==> r == stamp
  {
    if '+' !in stamp then
      assert stamp + "" == stamp;
      ReplaceAllSkip(stamp, "", "+00:00", "Z");
      ReplaceAll(stamp, "+00:00", "Z")
    else
      ReplaceAll(stamp, "+00:00", "Z")
  }

  /** A UTC timestamp ends in `+00:00`, which becomes `Z`. */
  lemma SevenDaysAgoIsoUtc(stamp: string)
    requires '+' !in stamp
    ensures SevenDaysAgoIso(stamp + "+00:00") == stamp + "Z"
  {
    assert stamp + "+00:00" == stamp + "+00:00" + "";
    ReplaceAllOnce(stamp, "+00:00", "", "Z");
  }

  function ResolvedIncidentsLastWeek(stamp: string): Probe
  {
    Probe("resolved_threats", ThreatsPath,
          map["incidentStatuses" := "resolved", "createdAt__gte" := SevenDaysAgoIso(stamp)])
  }

  function UnresolvedIncidentsLastWeek(stamp: string): Probe
  {
    Probe("unresolved_threats", ThreatsPath,
          map["incidentStatuses" := "unresolved", "createdAt__gte" := SevenDaysAgoIso(stamp)])
  }

  function ResolvedTruePositivesLastWeek(stamp: string): Probe
  {
    Probe("resolved_threats_tp", ThreatsPath,
          map["incidentStatuses" := "resolved", "createdAt__gte" := SevenDaysAgoIso(stamp),
              "analystVerdicts" := "true_positive"])
  }

  function ResolvedFalsePositivesLastWeek(stamp: string): Probe
  {
    Probe("resolved_threats_fp", ThreatsPath,
          map["incidentStatuses" := "resolved", "createdAt__gte" := SevenDaysAgoIso(stamp),
              "analystVerdicts" := "false_positive"])
  }

  function TotalNumberIncidentsLastWeek(stamp: string): Probe
  {
    Probe("total_threats", ThreatsPath, map["createdAt__gte" := SevenDaysAgoIso(stamp)])
  }

  /** The five probes, each called with its own clock reading. */
  function ThreatProbes(s0: string, s1: string, s2: string, s3: string, s4: string): seq<Probe>
  {
    [ResolvedIncidentsLastWeek(s0), UnresolvedIncidentsLastWeek(s1), ResolvedTruePositivesLastWeek(s2),
     ResolvedFalsePositivesLastWeek(s3), TotalNumberIncidentsLastWeek(s4)]
  }

  /** All five query the threats endpoint with a window starting seven days
      before their own call; their names are pairwise distinct; the status
      and verdict filters are as listed, and the total probe sends only the
      window. */
  lemma ThreatProbeFacts(s0: string, s1: string, s2: string, s3: string, s4: string)
    ensures var ps := ThreatProbes(s0, s1, s2, s3, s4);
      && DistinctNames(ps)
      && (forall i :: 0 <= i < 5 ==> ps[i].path == ThreatsPath && "createdAt__gte" in ps[i].params)
      && ps[0].params["createdAt__gte"] == SevenDaysAgoIso(s0)
      && ps[1].params["createdAt__gte"] == SevenDaysAgoIso(s1)
      && ps[2].params["createdAt__gte"] == SevenDaysAgoIso(s2)
      && ps[3].params["createdAt__gte"] == SevenDaysAgoIso(s3)
      && ps[4].params["createdAt__gte"] == SevenDaysAgoIso(s4)
      && ps[0].params.Keys == ps[1].params.Keys == {"incidentStatuses", "createdAt__gte"}
      && ps[2].params.Keys == ps[3].params.Keys == {"incidentStatuses", "createdAt__gte", "analystVerdicts"}
      && ps[4].params.Keys == {"createdAt__gte"}
      && ps[0].params["incidentStatuses"] == ps[2].params["incidentStatuses"] == ps[3].params["incidentStatuses"] == "resolved"
      && ps[1].params["incidentStatuses"] == "unresolved"
      && ps[2].params["analystVerdicts"] == "true_positive"
      && ps[3].params["analystVerdicts"] == "false_positive"
  {
  }
}

/** fetcher/metrics/apps.py: the application and vulnerability count probes. */
module Apps {
  import opened Probes

  const InventoryPath := "/web/api/v2.1/application-management/inventory"
  const RisksPath := "/web/api/v2.1/application-management/risks/applications"

  const TotalApplications := Probe("total_apps", InventoryPath, map[])

  const TotalApplicationVulnerabilities := Probe("total_app_vulns", RisksPath, map[])

  const CriticalApplicationVulnerabilities :=
    Probe("critical_app_vulns", RisksPath, map["highestSeverities" := "CRITICAL"])

  /** Distinct names; the two vulnerability probes share the risks endpoint
      and only the critical one sends a filter. */
  lemma AppProbeFacts()
    ensures DistinctNames([TotalApplications, TotalApplicationVulnerabilities, CriticalApplicationVulnerabilities])
    ensures TotalApplications.path == InventoryPath
    ensures TotalApplicationVulnerabilities.path == CriticalApplicationVulnerabilities.path == RisksPath
    ensures TotalApplications.params == TotalApplicationVulnerabilities.params == map[]
    ensures CriticalApplicationVulnerabilities.params.Keys == {"highestSeverities"}
    ensures CriticalApplicationVulnerabilities.params["highestSeverities"] == "CRITICAL"
  {
  }
}

/** fetcher/metrics/agents.py: the two agent-count probes. */
module Agents {
  import opened Probes

  const AgentsPath := "/web/api/v2.1/agents"

  const AgentsInGlobalScope := Probe("agents_in_global_scope", AgentsPath, map[])

  const AgentsRequiringAction :=
    Probe("agent_action_needed", AgentsPath, map["userActionsNeeded" := "reboot_needed,upgrade_needed"])

  /** Both query the agents endpoint under distinct names; only the action
      probe sends a filter. */
  lemma AgentProbeFacts()
    ensures DistinctNames([AgentsInGlobalScope, AgentsRequiringAction])
    ensures AgentsInGlobalScope.path == AgentsRequiringAction.path == AgentsPath
    ensures AgentsInGlobalScope.params == map[]
    ensures AgentsRequiringAction.params.Keys == {"userActionsNeeded"}
    ensures AgentsRequiringAction.params["userActionsNeeded"] == "reboot_needed,upgrade_needed"
  {
  }
}

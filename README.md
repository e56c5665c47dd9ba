# SentinelOne KPI collector — a Dafny model of its core logic

The collector polls the SentinelOne management API for scalar counts
(threats, agents, applications and their vulnerabilities) and writes each
count as a point to InfluxDB. Beside the counts, it has a paginated O365
logon query and a marketplace integration list, and
`postgres_write` stores the integration list in a relational table without
duplicates. A launcher script, `start-services.py`, turns a customer list into one
configured instance per customer: it lowercases the name, draws random
secrets, allocates ports by index and fills placeholders in templates.

The model has one Dafny module per source file, plus some shared modules:

- `Results`: errors and results, plus the sequence combinators that model
  Python's early exceptions.
- `Json`: JSON values, with `d[k]`, `d.get(k, default)`, iteration and truthiness.
- `Strings`: `str.replace`, ASCII `lower()` and `str(n)`.
- `Probes`: a probe's request and its reduction to a point.
- `Sinks`: the side effects of the collector, recorded as a log of events.

Each module takes the form of its source:

- The probes are pure functions.
- The O365 pager, the marketplace flattener and the customer loop are
  methods with loops, each proved against a recursive specification function.
- The integration table and the two collectors are classes. Their methods
  update a field: the table's rows, or the collector's log of sink calls.

Network replies, clock readings and random choices are parameters, so
every run is a function of its inputs:

- A probe takes a reply oracle indexed by task position.
- A threat probe takes a clock reading per call.
- The O365 pager takes a finite sequence of pages.
- `generate_api_key` makes a nondeterministic choice from its alphabet.

The endless `while True` loops are modelled over a finite sequence of cycles.

An observation: `generate_config` lowercases names. So two customers whose
names differ only in letter case get the same instance directory, InfluxDB
organisation, bucket and database name (`CaseVariantsShareInstance`). They
still get different ports, because ports follow the list position.

## Model

| member | source | states |
|---|---|---|
| Json.Subscript | fetcher/metrics/marketplace.py:18-21 | `d[key]` succeeds exactly when `d` is a dict holding `key`, yields that entry, and raises `KeyError(key)` for a dict without it |
| Json.DictGet | fetcher/metrics/threats.py:15 | `d.get(key, default)` succeeds exactly on dicts and yields the entry or the default |
| Json.Get | fetcher/metrics/O365.py:32-34 | `d.get(key)` on a dict is `d.get(key, None)`: the entry, or `None` when the key is absent |
| Json.Elements | fetcher/metrics/marketplace.py:18 | iterating a list yields its items; iterating an empty dict or string yields nothing; a scalar cannot be iterated |
| Strings.ReplaceAll | start-services.py:132 | `str.replace`: every non-overlapping occurrence, scanning left to right, becomes the value; its properties are the lemmas below |
| Strings.ReplaceAllAbsent | start-services.py:132 | `str.replace` with a pattern that does not occur leaves the text unchanged |
| Strings.ReplaceAllSkip | start-services.py:132 | a prefix that lacks the pattern's first character passes through `str.replace` untouched |
| Strings.ReplaceNonEmptySkip | start-services.py:132 | with a non-empty pattern, a prefix lacking the pattern's first character is copied through and the rest is replaced as on its own |
| Strings.ReplaceAllOnce | start-services.py:132 | a single occurrence becomes the value and the text around it is kept, when nothing after it contains the pattern and the text before it lacks the pattern's first character |
| Strings.Lower | start-services.py:46 | `str.lower()` on ASCII letters, every other character kept; its properties are in `LowerFacts` |
| Strings.LowerFacts | start-services.py:46 | `lower()` keeps the length, maps each upper-case ASCII letter to its lower-case letter (code point plus 32) and keeps every other character; so it leaves no upper-case ASCII letter, is idempotent and fixes names that are already lower-case |
| Strings.NatToString | start-services.py:143-145 | `str(n)` is a non-empty string of decimal digits without a leading zero |
| Strings.NatToStringValue | start-services.py:143-145 | the digits of `str(n)`, read back in decimal, denote `n` |
| Strings.NatToStringInjective | start-services.py:143-145 | different numbers print differently |
| Probes.CountOf | fetcher/metrics/threats.py:15 | `data.get("pagination", {}).get("totalItems", 0)`: it raises unless the body is a dict and any `pagination` is a dict, and gives `totalItems` when both keys are present, otherwise 0 |
| Probes.Measure | fetcher/metrics/threats.py:15-16 | the point carries the probe's own measurement name; its value is `pagination.totalItems` when present and 0 when `pagination` or `totalItems` is missing; it raises exactly when the body or its `pagination` is not a dict |
| Probes.StatusIgnored | fetcher/metrics/threats.py:10-15 | two replies with the same body give the same point, whatever their status codes |
| Threats.SevenDaysAgoIso | fetcher/metrics/threats.py:6-7 | a timestamp without an offset sign is left as it is |
| Threats.SevenDaysAgoIsoUtc | fetcher/metrics/threats.py:6-7 | a UTC timestamp's `+00:00` offset becomes `Z` |
| Threats.ThreatProbeFacts | fetcher/metrics/threats.py:9-52 | five distinct names on the threats endpoint; each has a `createdAt__gte` window from its own clock reading; the status and verdict filters and the window-only total probe are as written |
| Agents.AgentProbeFacts | fetcher/metrics/agents.py:6-21 | two distinct names on the agents endpoint; the global probe has no parameters; the action probe has `userActionsNeeded=reboot_needed,upgrade_needed` |
| Apps.AppProbeFacts | fetcher/metrics/apps.py:6-29 | three distinct names; the inventory and risks endpoints; only the critical probe sends `highestSeverities=CRITICAL` |
| O365.QueryParams | fetcher/metrics/O365.py:16-22 | every request carries the logon query and filter; it has a `continuationToken` exactly when there is a cursor, and then it is that cursor |
| O365.MatchLogins | fetcher/metrics/O365.py:30-43 | a match without `attributes` raises `KeyError`; otherwise it yields at most one login, present exactly when the email is not `None`, copying `status_detail`, `actor.user.email_addr` and `src_endpoint.ip` of that match |
| O365.EmailDecidesInclusion | fetcher/metrics/O365.py:33-36 | removing the email drops the match; any non-`None` email keeps it, with the other attributes copied |
| O365.EmptyEmailKept | fetcher/metrics/O365.py:36 | an empty-string email still passes the `!= None` test |
| O365.PageLogins | fetcher/metrics/O365.py:30 | a page without `matches` raises `KeyError("matches")` |
| O365.MissingMatchesIsError | fetcher/metrics/O365.py:30 | a page lacking `matches` is an error, not an empty page |
| O365.Drain | fetcher/metrics/O365.py:11-48 | the recursion `get_logins` is written as; a successful run had its first page answered and starts with that page's filtered logins, so gathered entries are never removed or reordered |
| O365.SinglePage | fetcher/metrics/O365.py:45-48 | a page whose token is absent or falsy ends the run with exactly that page's filtered logins |
| O365.CollectPage | fetcher/metrics/O365.py:30-43 | the loop over one page's matches leaves the earlier logins first and appends that page's filtered logins in match order, or raises the first match's error |
| O365.ReadPage | fetcher/metrics/O365.py:30-43 | one page's contribution is its filtered logins, or the page's error |
| O365.RequestsSnoc | fetcher/metrics/O365.py:45-47 | a next request carrying the previous page's truthy token keeps the request log well-formed |
| O365.DrainStep | fetcher/metrics/O365.py:30-47 | a failing page ends the run with its error; a page with a falsy token ends it with that page's logins; a truthy token prepends the page's logins to the rest of the run |
| O365.Advance | fetcher/metrics/O365.py:30-47 | after a successful page the gathered logins extend by that page's logins; a falsy token then makes them the whole result, a truthy one leaves the rest of the run to follow them |
| O365.GetLogins | fetcher/metrics/O365.py:11-48 | the loop equals the recursion; the first request has no token and each later one carries the previous page's token; on success it made one request per consumed page, the last token is falsy, and the result is the page-ordered concatenation of those pages' filtered logins |
| Marketplace.DecodeApp | fetcher/metrics/marketplace.py:19-21 | an app without `name` raises `KeyError("name")`; one without `scopes` raises `KeyError("scopes")`; a `scopes` the loop cannot iterate raises; a decoded app keeps its name and has one status per scope, in scope order, each being that scope's `status` |
| Marketplace.FlattenLength | fetcher/metrics/marketplace.py:18-23 | the number of records is the total number of scopes |
| Marketplace.FlattenAppend | fetcher/metrics/marketplace.py:18-23 | flattening distributes over concatenated app lists |
| Marketplace.FlattenAt | fetcher/metrics/marketplace.py:18-23 | the j-th scope of the i-th app is the record just after the scopes of the apps before it, with that app's name and that scope's status (apps in order, scopes in order) |
| Marketplace.EmptyScopesContributeNothing | fetcher/metrics/marketplace.py:20 | an app with no scopes adds no records |
| Marketplace.IntegrationsEdgeCases | fetcher/metrics/marketplace.py:16-24 | an empty `data` list yields no records; a missing `data`, `name`, `scopes` or `status` raises `KeyError` for that key |
| Marketplace.AppRecordsSnoc | fetcher/metrics/marketplace.py:20-23 | appending one scope appends one record |
| Marketplace.AppendScopes | fetcher/metrics/marketplace.py:20-23 | the inner loop appends one record per scope, in order, after the earlier records, or raises the first scope's missing `status` |
| Marketplace.Integrations | fetcher/metrics/marketplace.py:10-24 | the records `get_integrations` returns; a body without `data` raises `KeyError("data")`, and a result means the body had a `data` entry |
| Marketplace.GetIntegrations | fetcher/metrics/marketplace.py:10-24 | the nested loop returns exactly the flattened records of the decoded apps, or the first error the source would raise |
| Postgres.InsertAll | fetcher/database/postgres/postgres.py:18-24 | the table after the loop: each record in turn is appended unless already present; its properties are the lemmas below |
| Postgres.InsertAllGrows | fetcher/database/postgres/postgres.py:18-24 | existing rows stay in place and in order; at most one row is added per record |
| Postgres.InsertAllMembers | fetcher/database/postgres/postgres.py:19-24 | after a write every record of the batch is in the table, and every row comes from the old table or the batch |
| Postgres.InsertAllDistinct | fetcher/database/postgres/postgres.py:19-24 | a duplicate-free table stays duplicate-free |
| Postgres.InsertAllPresent | fetcher/database/postgres/postgres.py:19-24 | a batch already in the table inserts nothing |
| Postgres.WriteIdempotent | fetcher/database/postgres/postgres.py:19-24 | writing the same batch twice leaves the table as the first write left it |
| Postgres.DuplicateInBatchOneRow | fetcher/database/postgres/postgres.py:18-24 | a new record repeated within one batch becomes a single row |
| Postgres.SameStatusTwiceOneRow | fetcher/database/postgres/postgres.py:18-24 | an app with two scopes of the same status becomes one row |
| Postgres.IntegrationTable.constructor | fetcher/database/postgres/postgres.py:14 | a freshly created table is empty |
| Postgres.IntegrationTable.Exists | fetcher/database/postgres/postgres.py:19-22 | the existence filter holds exactly when a row with that name and status is present |
| Postgres.IntegrationTable.Create | fetcher/database/postgres/postgres.py:24 | one row is appended and nothing else changes |
| Postgres.IntegrationTable.Write | fetcher/database/postgres/postgres.py:16-26 | it returns `False` on an empty batch, leaving the table alone, and `True` otherwise; the new table is the record-by-record check-then-insert of the batch |
| Scheduler.ConfiguredProbeNames | fetcher/scheduler.py:8-21 | ten tasks with pairwise distinct measurement names |
| Scheduler.Gather | fetcher/scheduler.py:22 | `asyncio.gather(..., return_exceptions=True)`: one settled result per task, in task order; its properties are in `GatherFacts` |
| Scheduler.GatherFacts | fetcher/scheduler.py:22 | one result per task in task order; a result is an exception exactly when its request or reduction failed; no configured probe yields rows |
| Scheduler.Route | fetcher/scheduler.py:23-32 | the sink calls of the dispatch loop, in result order; its properties are the lemmas below |
| Scheduler.RouteAppend | fetcher/scheduler.py:23-32 | the calls for a concatenation of results are the calls for each part, in order |
| Scheduler.RouteLength | fetcher/scheduler.py:23-32 | each non-exception result causes exactly one sink call, and exceptions cause none |
| Scheduler.RoutePosition | fetcher/scheduler.py:23-32 | the call for the i-th result comes right after the calls for the earlier successful results (result order) |
| Scheduler.RouteWritesEveryPoint | fetcher/scheduler.py:23-32 | each successful point result is written, to the configured bucket and org, at the position after the earlier non-failed results |
| Scheduler.EventsForCounts | fetcher/scheduler.py:24-32 | a point causes one time-series write; a rows result causes one relational insert and no write; an exception causes nothing |
| Scheduler.RouteCounts | fetcher/scheduler.py:28-32 | writes equal points and inserts equal rows results |
| Scheduler.RouteOnlyWrites | fetcher/scheduler.py:31-32 | routing never initialises or sleeps, and every write goes to the configured bucket and org |
| Scheduler.CycleWritesEverySuccess | fetcher/scheduler.py:7-32 | in one cycle of the ten probes, every probe that did not fail is written once, with its own point, to the configured bucket and org, in probe order |
| Scheduler.RunEvents | fetcher/scheduler.py:38-40 | the calls of the `while True` loop over finitely many cycles: a sleep, then the cycle's calls; its properties are the lemmas below |
| Scheduler.RunEventsStep | fetcher/scheduler.py:38-40 | each loop iteration appends one sleep, then that cycle's calls |
| Scheduler.RunEventsCounts | fetcher/scheduler.py:38-40 | the loop never initialises and sleeps once per cycle |
| Scheduler.InitOnceThenCycles | fetcher/scheduler.py:34-40 | relational initialisation happens exactly once, first, followed by one sleep per cycle |
| Scheduler.Collector.constructor | fetcher/scheduler.py:4 | the collector holds the configured bucket and org, and nothing has been called yet |
| Scheduler.Collector.FetchAllAndWrite | fetcher/scheduler.py:7-32 | one cycle gathers the ten results, then the log gains exactly their routed calls |
| Scheduler.Collector.RouteResults | fetcher/scheduler.py:23-32 | the routing loop appends exactly the calls its results route to, in result order, and nothing else |
| Scheduler.Collector.MainLoop | fetcher/scheduler.py:34-40 | the log gains one initialisation, then sleep-and-cycle per cycle |
| FetchSentinelOne.LegacyCountOf | fetcher/fetchSentinelOne.py:79 | `data.get("pagination", {}).get("totalItems")`: it raises unless the body is a dict and any `pagination` is a dict, and gives `totalItems` when both keys are present, otherwise `None` |
| FetchSentinelOne.LegacyMeasure | fetcher/fetchSentinelOne.py:76-82 | the point carries the probe's name and `pagination.totalItems`, or `None` when it is missing; there is no default 0 |
| FetchSentinelOne.LegacyAgreesWhenPresent | fetcher/fetchSentinelOne.py:79 | the legacy and packaged probes fail together and agree whenever the count is present; otherwise the legacy one gives `None` and the packaged one 0 |
| FetchSentinelOne.LegacyProbeNames | fetcher/fetchSentinelOne.py:192-200 | seven tasks with pairwise distinct measurement names |
| FetchSentinelOne.LegacyGatherFacts | fetcher/fetchSentinelOne.py:201 | one result per task in task order; a result raises exactly when its request or reduction failed; otherwise it is that probe's point |
| FetchSentinelOne.LegacyRoute | fetcher/fetchSentinelOne.py:203-208 | the writes of the legacy dispatch loop, in result order; its properties are the lemmas below |
| FetchSentinelOne.LegacyRouteAppend | fetcher/fetchSentinelOne.py:203-208 | the writes for concatenated results are the writes for each part, in order |
| FetchSentinelOne.LegacyRouteLength | fetcher/fetchSentinelOne.py:203-208 | exactly the truthy points are written, each once |
| FetchSentinelOne.LegacyRoutePosition | fetcher/fetchSentinelOne.py:203-208 | the write for a truthy point follows the writes of the truthy points before it |
| FetchSentinelOne.LegacyRouteOnlyWrites | fetcher/fetchSentinelOne.py:207-208 | the router only writes, to the configured bucket and org |
| FetchSentinelOne.FalsyNotWritten | fetcher/fetchSentinelOne.py:207 | a falsy result causes no write |
| FetchSentinelOne.LegacyRunEvents | fetcher/fetchSentinelOne.py:229-232 | the calls of the legacy `while True` loop over finitely many cycles: a sleep, then the cycle's writes; its properties are the lemmas below |
| FetchSentinelOne.LegacyRunEventsStep | fetcher/fetchSentinelOne.py:230-232 | each iteration appends one sleep, then that cycle's writes |
| FetchSentinelOne.LegacyRunCounts | fetcher/fetchSentinelOne.py:229-232 | the legacy loop never initialises or inserts relationally, and sleeps once per cycle |
| FetchSentinelOne.LegacyRunStartsWithSleep | fetcher/fetchSentinelOne.py:230-231 | a run sleeps before its first cycle |
| FetchSentinelOne.LegacyCollector.constructor | fetcher/fetchSentinelOne.py:208 | the collector holds the configured bucket and org, and nothing has been written yet |
| FetchSentinelOne.LegacyCollector.FetchAllAndWrite | fetcher/fetchSentinelOne.py:191-208 | one cycle gathers the seven results, then the log gains exactly the writes of the truthy ones |
| FetchSentinelOne.LegacyCollector.WriteResults | fetcher/fetchSentinelOne.py:203-208 | the routing loop appends one write per truthy result, in result order, and nothing else |
| FetchSentinelOne.LegacyCollector.MainLoop | fetcher/fetchSentinelOne.py:229-232 | the log gains sleep-then-cycle per cycle, with no initialisation |
| StartServices.CharRange | start-services.py:70 | the range from one character to another holds exactly the characters between them, each once and in ascending order |
| StartServices.AlphabetIsAlnum | start-services.py:70 | the alphabet has 62 characters: exactly the ASCII letters and digits |
| StartServices.GenerateApiKey | start-services.py:69-71 | the key has the requested length (none for a negative one), and every character is a letter or a digit |
| StartServices.DrawSecrets | start-services.py:51-58 | the four secrets of a configuration are each 32 alphanumeric characters |
| StartServices.GenerateConfig | start-services.py:37-67 | the name, org, bucket and database are all the lowercased name; the index and the API and Meraki fields are copied; the secrets are the drawn ones; a non-string name raises |
| StartServices.CustomerOf | start-services.py:80-88 | only a dict entry gives arguments; `customer_name`, `sentinelone_url`, `sentinelone_api` and `sentinelone_xdr_api` are read with `.get`, so a missing one is `None`; a missing `meraki_url` or `meraki_api` becomes `""` |
| StartServices.CustomerEntries | start-services.py:79 | a missing `customers` key gives no entries, and a list gives its items |
| StartServices.ConfigsFrom | start-services.py:79-90 | the list the loop builds, with `len(instance_configs)` as index, or the first entry's error; its properties are the lemmas below |
| StartServices.Clients | start-services.py:73-91 | what `get_clients` returns for the parsed file and the drawn secrets; its properties are the lemmas below |
| StartServices.ConfigsAccepted | start-services.py:79-90 | the list is built exactly when every entry is a dict with a string `customer_name` |
| StartServices.ConfigsIndexed | start-services.py:77-90 | one configuration per entry, in list order; the i-th is `generate_config` of the i-th entry with index i |
| StartServices.IndicesDistinct | start-services.py:82 | customer indices are pairwise distinct |
| StartServices.ClientsDefaults | start-services.py:79-87 | no `customers` key gives an empty list; absent Meraki fields become `""` |
| StartServices.ConfigsIgnoreLaterSecrets | start-services.py:80-88 | a configuration depends only on the secrets drawn for its own position |
| StartServices.ConfigsErrPersists | start-services.py:79-90 | the first failing entry aborts the whole list |
| StartServices.ConfigsStep | start-services.py:79-90 | an entry that is not a dict, or whose name is not a string, fails the whole list; otherwise it extends the list by its own configuration |
| StartServices.GetClients | start-services.py:73-91 | the loop builds exactly the indexed configurations; it draws one set of well-formed secrets per configuration |
| StartServices.Values | start-services.py:132-145 | one value per placeholder |
| StartServices.ReplaceVariables | start-services.py:130-146 | `replace_variables`: the fourteen replacements in the source's order; its properties are the lemmas below |
| StartServices.ReplaceChainOk | start-services.py:131-146 | the replace chain succeeds exactly when every value is a string; otherwise `str.replace` raises `TypeError` |
| StartServices.ReplaceChainAbsent | start-services.py:131-146 | text containing none of the placeholders comes out unchanged |
| StartServices.ReplaceChainOne | start-services.py:131-146 | one placeholder occurrence, in brace-free text and with a brace-free substituted value, becomes that placeholder's value |
| StartServices.PlaceholdersAreTokens | start-services.py:132-145 | the fourteen placeholders are distinct `{{…}}` tokens with brace-free names |
| StartServices.ReplaceVariablesFails | start-services.py:130-146 | `replace_variables` succeeds exactly when the URL, API key and both Meraki fields are strings |
| StartServices.ValuesFromConfig | start-services.py:132-145 | every substituted value except the SentinelOne URL and API key and the two Meraki fields is a string by construction; those four are the configuration's own fields |
| StartServices.ReplaceVariablesUnchanged | start-services.py:130-146 | content with none of the placeholders is returned unchanged |
| StartServices.ReplaceVariablesOne | start-services.py:131-145 | a single placeholder surrounded by brace-free text is replaced by its configuration value |
| StartServices.InfluxPortSubstituted | start-services.py:143 | `{{influxdb_port}}` becomes `str(8086 + index)` |
| StartServices.PostgresPortSubstituted | start-services.py:144 | `{{postgres_port}}` becomes `str(5432 + index)` |
| StartServices.GrafanaPortSubstituted | start-services.py:145 | `{{grafana_port}}` becomes `str(3000 + index)` |
| StartServices.PortValues | start-services.py:143-145 | the InfluxDB, Postgres and Grafana port strings denote 8086, 5432 and 3000 plus the customer index |
| StartServices.PortsDistinct | start-services.py:143-145 | customers with different indices get different InfluxDB, Postgres and Grafana ports |
| StartServices.InfluxPortsDistinct | start-services.py:143 | different indices give different InfluxDB ports |
| StartServices.PostgresPortsDistinct | start-services.py:144 | different indices give different Postgres ports |
| StartServices.GrafanaPortsDistinct | start-services.py:145 | different indices give different Grafana ports |
| StartServices.JoinPath | start-services.py:101 | `pathlib`'s `base / part`: an absolute part replaces the base, an empty part or `.` adds nothing, any other part is appended after a separator |
| StartServices.InstanceDir | start-services.py:101 | `INSTANCES / config.customer_name` |
| StartServices.InstanceDirectories | start-services.py:102-103 | the `fetcher` and `grafana` directories of an instance |
| StartServices.ComposePath | start-services.py:113 | `instance_dir / "docker-compose.yml"` |
| StartServices.GrafanaTemplates | start-services.py:119-122 | the three Grafana files under `grafana/provisioning` |
| StartServices.JoinExtends | start-services.py:101 | joining a relative component extends the base path |
| StartServices.InstancePaths | start-services.py:100-122 | the instance directory is `instances/<name>`; the compose file is `<dir>/docker-compose.yml`; the two directories are `fetcher` and `grafana` inside it; the Grafana templates lie under its `grafana` directory |
| StartServices.InstanceDirsDistinct | start-services.py:101 | different plain names give different instance directories |
| StartServices.CaseVariantsShareInstance | start-services.py:46-59 | "Acme" and "ACME" get the same organisation, bucket and database, all `acme`, and one instance directory |

## Left out

- HTTP transport (`fetch_json`, aiohttp sessions, headers): a reply is an oracle value, either a status code with a JSON body or a transport error.
- Token validation and reachability waits (`confirm_sentinelone_token`, `wait_for_influxdb`, `wait_for_postgres`), and the `__main__` sequencing of those waits: they are sockets, sleeps and `exit()`.
- `postgres_init` and the Tortoise schema: they are represented only by a `PostgresInit` event and by the empty table of the class constructor. `models.py` declares `status` as a boolean field, but records keep the status as the JSON value they were read as.
- The relational insert at `fetcher/scheduler.py:29` names an undefined `postgres_client`, and no configured probe returns such a result. The branch is modelled as one abstract `PostgresInsert` event, so the `NameError` is not reproduced.
- `fetcher/metrics/integrations.py` only prints, with no return value.
- Concurrency: `asyncio.gather` is its result sequence in task order, and interleaving is not modelled.
- Wall clock: `datetime.now() - timedelta(days=7)` becomes a timestamp string passed to each threat probe.
- Sleep durations, `float(refresh_interval)` and environment-variable configuration are not modelled. The configured bucket and org are class constants.
- The `while True` loops run over a finite sequence of cycles.
- Randomness: `secrets.choice` is a nondeterministic choice from the alphabet.
- Filesystem and process work in `start-services.py` is not modelled: `mkdir`, `copytree`, reading and writing templates, `json.load`, `docker compose`. Only the path values are modelled.
- `pathlib` normalisation beyond three cases: an empty or `.` component, an absolute component, an appended relative component.
- `lower()` is ASCII-only. The model does not cover Unicode case mapping.
- Python's `TypeError` and `AttributeError` are merged into one error. Exception messages and the printed error lines are not modelled.
- A legacy result is a point object, which is always truthy, or an abstract falsy value. The probes themselves never return a falsy value.
- An O365 request past the last page of the finite page source receives a transport error.
- Scheduler.Route, FetchSentinelOne.LegacyRoute, Postgres.IntegrationTable.Write, Scheduler.RunEvents, FetchSentinelOne.LegacyRunEvents and both collectors' `MainLoop`: every sink call is taken to succeed. In the source, `write_api.write` (`fetcher/scheduler.py:32`, `fetcher/fetchSentinelOne.py:208`), `Integration.filter(...).exists()` and `Integration.create` (`fetcher/database/postgres/postgres.py:19-24`) have no `try` around them. One failing call skips the rest of the cycle, or leaves a batch partly inserted, and then ends `main_loop`. Those failures are not modelled, and neither is the stop they cause.
- O365.GetLogins, O365.Drain: the recursion-depth limit is not modelled. `get_logins` (`fetcher/metrics/O365.py:45-47`) fetches the next page with one more nested `await get_logins(...)`, so past Python's recursion limit (1000 by default) the source raises `RecursionError`. The model succeeds on any finite number of pages.
- `sentinelone_xdr_api` is copied into the configuration but never substituted, because the source has no placeholder for it.
- StartServices.ReplaceVariablesOne: it requires the substituted value to be brace-free too. The source example only asks this of the surrounding text, but a value containing braces could form a later placeholder.
- StartServices.GetClients: the secrets drawn for the customer whose entry fails are not returned.

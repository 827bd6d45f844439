# A verified model of the smtx-lab operator

The operator runs network probes from every node of a cluster, explains the iptables path of each probed flow, and
recommends container resources from Prometheus samples. This project models the three components that decide something
and proves what they promise. `dafny verify dfyconfig.toml` checks it.

**The probe protocol.** `ProbeChecks` builds the check list. `ProbeJobs` is one pass over the probe jobs, as a function of
the job store and as a class whose loop changes that store call by call. `ProbeController` and `ProbeReconciler` do the
same for a whole pass of the reconciler: finalizer, run, artifacts, status, cleanup, with any API call failing at any
point and everything done before it kept. `ProbeBinary` is the program that runs in the jobs. `ProbeRuns` puts these into a
transition system with the steps of users, of the job controller, of the TTL controller and of everybody else;
`ProbeSafety` proves one invariant, traces the checks behind a status to the pass that built them, and reads the results
off both; `ProbeConvergence` has the progress measure; `ProbeCompletion` shows that a run to Succeeded is always possible
while nothing has gone wrong; `ProbeStability` shows that a repeated pass at the end changes nothing. `CheckLaws`,
`JobLaws` and `ProbeArtifacts` state what a check list, a pass over the jobs and the written ConfigMaps are without their
loops. `CheckMeaning` says what every check dials and that every wanted check is there, `ReadingLaws` which termination
message decides about a job, `ProbeVerdict` which phase a pass writes and what it records, and what a cleanup takes away;
`ProbeReach` puts the pieces together: what Succeeded means for the listed pods and services. The state keeps three pieces of history that the code does not have: every job ever created by a pass
(`Store.created`), the traffic settings, check list and reports behind the written status (`State.basis`), and which of the
lab's ConfigMaps others took away since that status was written (`State.removed`).

**Resource recommendation.** `Percentiles`, `Usage` and `Recommend` turn the samples of one container into requests and
limits. `SeriesJoin` states the analysis of six series lists declaratively (`Analyzes`), `ResourceAnalyzer` is the code
(profiles behind pointers in a map, a range over the map, an unstable sort) proved against it, and `SeriesLaws` proves
what follows. `SampleOrder`, `SeriesParts` and `SeriesOrder` settle when the order of series matters; `LimitConditions`
settles when a limit covers its samples and when its percentile has no influence. `UsageMeaning`, `RecommendMeaning` and
`SeriesMeaning` state every figure from samples, labels and settings, without the steps that compute it.

**iptables.** `AgentFilter` is the filter on the node, `IptablesRules` the parser, `IptablesTrace` the tracer,
`IptablesPath` the soundness of traces and the joined path, `IptablesSummary` the second reading of the same dump.
`DumpRoundTrip` shows that a written dump is read back; `TraceMeaning` states from rules and routes what a trace shows and
in which order.

`Text`, `Sorting`, `Sequences`, `Names`, `Finalizers` and `ProbeTypes` are shared.

## Modelling decisions

- Digests are functions. `shortHash` gives ten hexadecimal digits and tells the nodes of the cluster apart (`Env.nodes`, a
  finite set); the digests behind `checkID` and `checksHash` have no collisions (`JobLaws.Collisionless`).
- Ranging over a Go map yields its keys in any order, and `sort.Slice` yields any sorted arrangement; where the result is
  nevertheless fixed, that is proved.
- Kubernetes names contain no `|`, and within one pass a namespace and a name mean one object
  (`ProbeController.Legible`).
- One pass of the controller is atomic and sees current objects. A failing API call has no effect of its own.
- Deleting a job sets a mark; the object disappears in a later step. Deleting a ConfigMap removes it. An API server removes
  a deleted lab with its last finalizer.
- A pod owned by one of our jobs, if it has a readable report, has what the probe program writes for the payload of that
  job (`ProbeRuns.PodsHonest`). A message can always be unreadable.
- Users may create, edit and delete the lab and change its finalizers except for taking the operator's own away. Others
  leave the lab's jobs alone and put its label on nothing; they may delete its ConfigMaps or take the label off them.
- Numbers are mathematical integers and reals.

## Where properties hold only under a condition

Each of these is false in general; the exact condition is proved, and an instance where it fails.

- The two readings of a dump (`SummarizeIptables` counts, `parseIptables` lists) agree on a chain if and only if no rule
  line of that chain stands outside a table (`IptablesSummary.ReadingsAgree`). `IptablesSummary.RuleWithoutTable` is an
  instance where they differ.
- Permuting the six lists changes no result if and only if, for every key, the series of one list agree
  (`SeriesOrder.OrderIndependenceExactly`): on the workload their labels name, on the request or limit they end with, and,
  where several have the latest sample of a container, on its value. `SeriesOrder.TwoRequestsDepend` and
  `SeriesOrder.TwoReportsDepend` are instances where order matters. A disagreement of one key is enough
  (`SeriesOrder.DisagreementMatters`).
- A limit covers every sample of the last 14 days, whatever the values and the policy, if and only if some timestamp of the
  container is positive, or the metric has at most one sample, or none in that time (`LimitConditions.CoverageExactly`): the
  code takes a latest timestamp of 0 for "no samples" (internal/analyzer/resource_series.go:146-169).
  `LimitConditions.TimeZeroUncovered` is an instance with a CPU limit of 0. What a limit covers in any case is
  `LimitConditions.LimitCoversPercentile`.
- The limit percentile, which the Reason text names, has no influence on a limit, whatever the values and the policy, if and
  only if the metric has at most one sample, or some timestamp is positive and 99(n-1) <= 100(r-1) for its n samples, of
  which r lie within 14 days of the latest (`LimitConditions.NameIrrelevantExactly`): a configured percentile matters only
  if about one in a hundred samples is older. `LimitConditions.NameMattersExample` gives the values where it does.
- The deadline of a job leaves every attempt its time and a minute more if and only if all attempts together take at most
  3540 seconds (`ProbeJobs.ProbeJobDeadlineSeconds`), since it is capped at an hour. With one attempt of five seconds per
  check, 708 checks fit and 709 do not (`ProbeJobs.DeadlineTooShort`).
- The documentation (README.md:333-336 of the repository) counts VIP checks over all services. The code leaves out headless
  services; the documented count is right if and only if every service without a cluster address has no port to probe
  (`CheckLaws.DocumentedVIPCount`, with an instance in `CheckLaws.HeadlessServiceIsNotCounted`). The model follows the code.

## Model

| member | source | states |
|---|---|---|
| AgentFilter.FilterIptablesLines | internal/agent/commands.go:133-145 | the agent reports exactly the lines without a chain or with an allowed one, in order; an empty allowlist filters nothing |
| AgentFilter.FilterConntrackLines | internal/agent/commands.go:178-204 | although it stops early, the result is the filtered list cut to the entry limit, 2000 by default |
| AgentFilter.ConntrackStable | internal/agent/commands.go:178-204 | filtering again changes nothing; a higher limit only adds lines at the end |
| AgentFilter.KeptConcat | internal/agent/commands.go:133-145 | a dump is filtered line by line, in order |
| AgentFilter.KeptAlone | internal/agent/commands.go:147-175 | a line is kept exactly if it belongs to no chain, or its chain is one of the patterns or matches one |
| AgentFilter.ConntrackConcat | internal/agent/commands.go:178-204 | entries are filtered line by line, in order |
| AgentFilter.ConntrackAlone | internal/agent/commands.go:187-196 | an entry is reported exactly if it is not blank and no protocols are asked for or its first word is one of them in whatever case |
| AgentFilter.ConntrackLimit | internal/agent/commands.go:183-201 | at most the configured number of entries, or 2000; fewer only if there are no more |
| IptablesRules.ParseIptables | internal/analyzer/network.go:135-166 | the loop over a current table and nested maps computes the parse, which `ParseMeaning` describes line by line |
| IptablesRules.ParseMeaning | internal/analyzer/network.go:135-166 | a chain is declared under a table exactly if some line mentions it while that table is in force; its rules are the rule lines among those, trimmed, in order |
| IptablesRules.FilterThenParse | internal/agent/commands.go:133-163 | parsing the filtered dump equals parsing the whole dump and keeping the allowed chains of each table |
| DumpRoundTrip.ParsedDump | internal/analyzer/network.go:135-166 | parsing a dump as `iptables-save` writes it gives its tables, each with its chains, each with its rules in order, and nothing else |
| DumpRoundTrip.ReadBack | internal/analyzer/network.go:135-166 | every chain of a written table is read with its rules |
| DumpRoundTrip.RuleLineReads | internal/agent/commands.go:147-163 | the agent and the analyzer read the same chain from a written rule |
| IptablesTrace.Int32String | internal/analyzer/network.go:319-331 | the digits written backwards into 11 bytes are the decimal numeral; a negative number gives no digit |
| IptablesTrace.Trace.AppendStep | internal/analyzer/network.go:234-244 | a step is added unless it has no chain or its stage, table and chain are there already |
| IptablesTrace.Trace.AppendExistingChain | internal/analyzer/network.go:225-232 | the hook step of the first table that declares the chain |
| IptablesTrace.Trace.AppendEndpoint | internal/analyzer/network.go:96-106 | the policy step of the workload interface's endpoint chain, if both are found |
| IptablesTrace.FindServiceRule | internal/analyzer/network.go:169-178 | the first KUBE-SERVICES rule that matches address, port and protocol |
| IptablesTrace.SelectEndpoint | internal/analyzer/network.go:197-210 | the endpoint is that of the first rule naming the target address, else that of the first whose chain rewrites to it |
| IptablesTrace.TraceServiceDNAT | internal/analyzer/network.go:168-223 | KUBE-SERVICES jumping to the service chain, the service chain selecting the endpoint, the endpoint chain with its rewrite; shorter where a link is missing, nothing where no rule matches the flow |
| IptablesTrace.TraceSourceIptables | internal/analyzer/network.go:87-110 | the source steps in packet order: pre-routing, the service steps of a flow with a service address, forward, dispatch, endpoint policy, KUBE-FORWARD, post-routing; each hook only if the dump declares it |
| IptablesTrace.TraceTargetIptables | internal/analyzer/network.go:112-131 | the target steps in packet order, with dispatch towards the workload |
| IptablesPath.ServiceStepsSound | internal/analyzer/network.go:168-223 | consecutive service steps are linked by a jump rule of the nat table, no step repeats |
| IptablesPath.SourceTraceSound | internal/analyzer/network.go:87-110 | a hook of the source side is reached exactly if one of its tables declares its chain, and its step names the first such table; every other step is the policy chain that the dispatch rules name for the interface of the source address, or a service step; the policy chain is reached if there is one, service steps are linked, nothing repeats |
| IptablesPath.TargetTraceSound | internal/analyzer/network.go:112-131 | the same for the target side, whose dispatch rules are looked up for the interface of the target address |
| TraceMeaning.SourceTraceOrder | internal/analyzer/network.go:87-110 | a source trace is pre-routing, then the service steps (none for a flow without a service address), then forwarding, dispatch, policy, Kubernetes forwarding and post-routing in this order, each with its purpose |
| TraceMeaning.TargetTraceOrder | internal/analyzer/network.go:112-131 | the order and the purposes of a target trace |
| TraceMeaning.ServiceStepsExactly | internal/analyzer/network.go:168-223 | service steps are there exactly if the first rule for the address, port and protocol of the flow jumps somewhere: KUBE-SERVICES, the target, and the endpoint chain exactly if one is selected, each with its action |
| TraceMeaning.EndpointExactly | internal/analyzer/network.go:196-210 | the endpoint is that of the first rule that names the target address; only without any, that of the first rule whose chain rewrites to it |
| TraceMeaning.ServiceRuleExactly | internal/analyzer/network.go:169-178 | a rule is for the service of a flow exactly if it has the service address, the port if there is one, and the protocol, where HTTP counts as TCP |
| TraceMeaning.DnatActionExactly | internal/analyzer/network.go:298-308 | the action of an endpoint step is the destination of the first rule that has one |
| TraceMeaning.InterfaceExactly | internal/analyzer/network.go:246-262 | the interface of a workload is the one after "dev" on the first route to exactly its address that names one |
| TraceMeaning.DispatchExactly | internal/analyzer/network.go:264-274 | the dispatch target is where the first rule jumps that has the direction directly followed by the interface, or none |
| TraceMeaning.CategoryExactly | internal/analyzer/network.go:389-404 | which chains forward pod traffic and which are for services |
| TraceMeaning.CalicoPurposes | internal/analyzer/network.go:406-443 | the purposes of Calico chains, by prefix or name |
| TraceMeaning.KubernetesPurposes | internal/analyzer/network.go:406-443 | the purposes of Kubernetes chains, by prefix or name; any other is only captured |
| IptablesPath.DispatchTargetRule | internal/analyzer/network.go:264-274 | a dispatch target is the jump target of the first rule that names the interface in the given direction |
| IptablesPath.ToAPITraceSteps | internal/controller/networkprobelab_controller.go:915-929 | steps are numbered from the start order and carry their node |
| IptablesPath.JoinPath | internal/controller/networkprobelab_controller.go:243-246 | the target steps continue the numbering of the source steps |
| IptablesPath.JoinedPath | internal/controller/networkprobelab_controller.go:243-246 | the source steps on the source node and then the target steps on the target node, numbered 1..n, with no stage, table and chain twice |
| IptablesPath.FilteredTraces | internal/analyzer/network.go:87-131 | if the allowlist keeps every chain a trace reads, the trace of the filtered dump is the trace of the full dump |
| IptablesSummary.CountChains | internal/analyzer/network.go:343-354 | the counts are those of the rule lines per mentioned chain |
| IptablesSummary.SummarizeIptables | internal/analyzer/network.go:342-378 | each list has exactly the mentioned chains of its category, once, sorted by name, with their rule counts; the lists are disjoint |
| IptablesSummary.TwoReadings | internal/analyzer/network.go:342-378 | a summarized count is the sum of the parsed rule lists over all tables plus the rule lines outside any table |
| IptablesSummary.ReadingsAgree | internal/analyzer/network.go:135-166 | the two readings agree on a chain if and only if no rule line of it stands outside a table |
| IptablesSummary.RuleWithoutTable | internal/analyzer/network.go:147-153 | an instance: the summary counts a rule line that no table line precedes, the parse does not have it |
| Percentiles.Percentile | internal/analyzer/resource.go:114-137 | sorting a copy in place and interpolating gives the percentile; the argument stays as it is |
| Percentiles.PercentileMeaning | internal/analyzer/resource.go:114-137 | at least floor(p(n-1))+1 samples are at most the result, at least n-ceil(p(n-1)) are at least it, and it lies between samples |
| Percentiles.PercentileInterpolates | internal/analyzer/resource.go:114-137 | the percentile lies between the k-th and the next sorted sample, as far along as the rank p(n-1) lies between k and k + 1 |
| Percentiles.PercentileClamped | internal/analyzer/resource.go:118-122 | a fraction outside 0..1 counts as the nearer end |
| Percentiles.PercentilePermutation | internal/analyzer/resource.go:114-137 | the order of the samples does not matter |
| Percentiles.PercentileMonotone | internal/analyzer/resource.go:114-137 | raising samples pointwise never lowers the percentile |
| Percentiles.PercentileMonotoneInP | internal/analyzer/resource.go:114-137 | the percentile does not decrease in p |
| Usage.LatestTimestampOf | internal/analyzer/resource_series.go:159-169 | the largest timestamp of both sample lists, at least 0 |
| Usage.LatestSample | internal/analyzer/resource_series.go:193-204 | the current sample is one with the largest timestamp |
| Usage.ValuesInWindow | internal/analyzer/resource_series.go:217-225 | the values whose timestamps lie in the closed window, in order |
| Usage.MinAvgMax | internal/analyzer/resource_series.go:237-254 | minimum, mean and maximum of the values |
| Usage.CurrentUsageStats | internal/analyzer/resource_series.go:171-191 | the statistics of the current samples |
| Usage.WindowUsageStats | internal/analyzer/resource_series.go:206-215 | the statistics of both metrics over one window, with the larger sample count |
| Usage.BuildUsageWindows | internal/analyzer/resource_series.go:146-157 | current, 7-day and 14-day statistics, ending at the latest timestamp |
| Usage.WindowsNest | internal/analyzer/resource_series.go:146-254 | 14d min <= 7d min <= 7d avg <= 7d max <= 14d max and nested counts, whatever the timestamps; a metric with the latest timestamp has its current value within the 7-day bounds; some metric has it if a timestamp is positive |
| Usage.WindowsMonotone | internal/analyzer/resource_series.go:146-254 | raising samples, at the same times, lowers no average and no maximum of the 7-day or the 14-day window |
| UsageMeaning.UnitsExactly | internal/analyzer/resource.go:157-163 | a figure is the least number of whole millicores or MiB not below its value |
| UsageMeaning.MeanBalances | internal/analyzer/resource_series.go:237-254 | the average is the one value from which the deviations cancel out |
| UsageMeaning.SumOne | internal/analyzer/resource_series.go:237-254 | the sum of one value is the value |
| UsageMeaning.WindowConcat | internal/analyzer/resource_series.go:217-225 | the values of a window come from the samples one by one, in order |
| UsageMeaning.WindowOfOne | internal/analyzer/resource_series.go:217-225 | a sample alone is in a window exactly if its timestamp lies between start and end, both included |
| UsageMeaning.WindowCounts | internal/analyzer/resource_series.go:146-215 | the windows count the samples of the last 7 and 14 days, of the metric that has more; without a positive timestamp there are none |
| Recommend.ObservedPercentiles | internal/analyzer/resource.go:46-51 | the six observed percentiles in millicores and MiB |
| Recommend.RecommendResources | internal/analyzer/resource.go:32-112 | each figure is the larger of percentile and 14-day statistic, with headroom and minimum, rounded up; a limit that is not 0 is raised to its request; the reason names the configured percentiles and the language |
| Recommend.RoundUpBounds | internal/analyzer/resource.go:251-256 | a value above 0 is rounded to the least multiple of the step that is not below it, any other to 0 |
| Recommend.RoundMonotone | internal/analyzer/resource.go:237-249 | rounding with a step that grows with the value is still monotone |
| Recommend.RecommendationMonotone | internal/analyzer/resource.go:53-85 | raising samples never lowers a recommended request or limit |
| Recommend.LimitsCoverSamples | internal/analyzer/resource.go:59-85 | if some timestamp is positive, the limits are at least 1.2 times every CPU sample and 1.25 times every memory sample of the last 14 days |
| Recommend.RecommendationTight | internal/analyzer/resource.go:53-85 | requests, and limits not raised to their request, exceed their need by less than one step; a limit is 0 or at least its request; requests respect the minimum |
| RecommendMeaning.RequestsExactly | internal/analyzer/resource.go:53-85 | each request is the least step that covers, with its headroom, its percentile in whole units, the 14-day average and the minimum |
| RecommendMeaning.RequestsCover | internal/analyzer/resource.go:53-85 | with its headroom, each request covers the 14-day average and at least floor(p(n-1))+1 of its n samples |
| RecommendMeaning.LimitsExactly | internal/analyzer/resource.go:59-85 | each limit is the least step that covers, with the headroom of the runtime, its percentile and the 14-day maximum, or the request if that is more |
| RecommendMeaning.HeadroomExactly | internal/analyzer/resource.go:190-221 | each runtime gets its documented headroom, and more only if more is configured |
| RecommendMeaning.PercentileNameExactly | internal/analyzer/resource.go:139-155 | which fraction a configured percentile name and its fallback stand for |
| RecommendMeaning.ObservedExactly | internal/analyzer/resource.go:46-51 | the observed figures are the median, the 95th and the 99th percentile in whole units, in this order |
| RecommendMeaning.RecommendationCarries | internal/analyzer/resource.go:87-112 | a recommendation is about its profile and shows its usage, its settings and its language |
| Recommend.LimitPercentileIrrelevant | internal/analyzer/resource.go:59-74 | if some timestamp is positive and, for each metric, at most one sample is there or 99(n-1) <= 100(r-1) for n samples with r of the last 14 days, the limit percentiles change nothing |
| LimitConditions.LimitCoversPercentile | internal/analyzer/resource.go:59-74 | whatever the timestamps, a limit covers its percentile with the least headroom, and so at least floor(p(n-1))+1 of the n samples |
| LimitConditions.CoverageExactly | internal/analyzer/resource_series.go:146-169 | for given timestamps, a limit covers all samples of the last 14 days, for all values and policies, if and only if a timestamp is positive, or there is at most one sample, or none of the last 14 days |
| LimitConditions.TimeZeroUncovered | internal/analyzer/resource_series.go:148-150 | an instance: with all samples at time 0, a container that has used a whole core gets a CPU limit of 0 |
| LimitConditions.NameIrrelevantExactly | internal/analyzer/resource.go:59-74 | for given timestamps, the limit percentile has no influence, for all values and policies, if and only if there is at most one sample, or a timestamp is positive and 99(n-1) <= 100(r-1) for n samples with r of the last 14 days |
| LimitConditions.NameMattersExample | internal/analyzer/resource.go:59-74 | where that condition fails, values for which p50 and p99 give different limits |
| ResourceAnalyzer.ProfileTable.Ensure | internal/analyzer/resource_series.go:25-41 | the profile of a key is created once and then shared |
| ResourceAnalyzer.ProfileTable.Read | internal/analyzer/resource_series.go:43-56 | reading one series keeps the table equal to the group-by of the series read so far |
| ResourceAnalyzer.ProfileTable.ReadAll | internal/analyzer/resource_series.go:43-98 | the same for a whole list |
| ResourceAnalyzer.SelectKeys | internal/analyzer/resource_series.go:100-109 | ranging over the map selects exactly the keys with usage and an allowed workload kind, once each |
| ResourceAnalyzer.SortKeys | internal/analyzer/resource_series.go:110-118 | the keys end up strictly increasing by namespace, pod and container |
| ResourceAnalyzer.RecommendAll | internal/analyzer/resource_series.go:123-127 | each key gets the recommendation of its own group although profiles are updated through pointers |
| ResourceAnalyzer.Summarize | internal/analyzer/resource_series.go:120-142 | every figure of the summary is the fold of the recommendations |
| ResourceAnalyzer.AnalyzeResourceSeries | internal/analyzer/resource_series.go:23-144 | the result is an analysis: strictly sorted, exactly one recommendation per selected key, each from the concatenation of its key's samples, summary folded |
| SeriesLaws.AnalysisDetermined | internal/analyzer/resource_series.go:100-118 | map iteration and the unstable sort leave no choice |
| SeriesLaws.IdleSeriesIrrelevant | internal/analyzer/resource_series.go:71-109 | request and limit series of keys without usage change nothing |
| SeriesLaws.AnalysisMonotone | internal/analyzer/resource_series.go:23-144 | raising usage keeps the analyzed containers and never lowers a recommendation |
| SeriesLaws.RecommendationsAreBuilt | internal/analyzer/resource_series.go:123-127 | every recommendation comes from a profile whose windows are those of its samples |
| SeriesMeaning.AnalyzedExactly | internal/analyzer/resource_series.go:263-295 | exactly the containers are analyzed that have a usage sample and, by the labels of their first usage series, a wanted workload; excluded namespaces and pod sandboxes never |
| SeriesMeaning.RecommendationDescribes | internal/analyzer/resource_series.go:23-130 | a recommendation has the workload of the first usage series, the language of the first override that fits, the windows of all samples of the container, and as current settings what its last request and limit series end in, rounded up |
| SeriesMeaning.WorkloadExactly | internal/analyzer/resource_series.go:297-333 | which workload the labels of a series name |
| SeriesMeaning.LanguageExactly | internal/analyzer/resource_series.go:335-354 | the first override that fits decides about the language, else the default, else Go |
| SeriesMeaning.SettingExactly | internal/analyzer/resource_series.go:71-98 | a current setting is the last value of the last series of the container in whole units, rounded up, or 0 |
| SeriesMeaning.InnerSamplesIrrelevant | internal/analyzer/resource_series.go:356-361 | replacing any samples of request and limit series but the last of each changes nothing |
| SeriesMeaning.SummaryExactly | internal/analyzer/resource_series.go:120-142 | the summary counts containers, namespaces, workloads and recommendations that change a figure |
| SeriesMeaning.ReductionsBalance | internal/analyzer/resource_series.go:133-138 | reductions of requests minus their growth are the net change |
| SeriesMeaning.NothingReduced | internal/analyzer/resource_series.go:133-138 | nothing is reduced exactly if no request is recommended below the current one |
| SampleOrder.WindowsPermutation | internal/analyzer/resource_series.go:146-254 | permuting the samples of a container leaves its windows as they are if it leaves the current values |
| SampleOrder.RecommendationPermutation | internal/analyzer/resource.go:32-112 | with the windows fixed, a recommendation does not depend on the order of the samples |
| SeriesOrder.OrderIndependenceExactly | internal/analyzer/resource_series.go:23-144 | no permutation of the six lists changes a result if and only if, for every key, the series of one list agree: on the workload, on the last request or limit, and on the current usage unless no timestamp is positive |
| SeriesOrder.OrderIndependence | internal/analyzer/resource_series.go:23-144 | if the series agree, permuted lists have the same analysis |
| SeriesOrder.SameResultsExactly | internal/analyzer/resource_series.go:100-142 | two analyses are equal if and only if the same keys are selected and get the same recommendations |
| SeriesOrder.DisagreementMatters | internal/analyzer/resource_series.go:25-98 | series of one key that disagree: some permutation changes the result of that key |
| SeriesOrder.TwoRequestsDepend | internal/analyzer/resource_series.go:71-78 | an instance with two CPU request series of one container |
| SeriesOrder.TwoReportsDepend | internal/analyzer/resource_series.go:193-204 | an instance with two CPU usage series of one container that report at the same time |
| Names.SanitizeName | internal/controller/networkprobelab_controller.go:1223-1243 | the loop collapses runs of other characters to one dash and trims |
| Names.SanitizedFixed | internal/controller/networkprobelab_controller.go:1223-1243 | sanitizing is the identity exactly on its results, hence idempotent |
| Names.GeneratedNamesLegal | internal/controller/networkprobelab_controller.go:1203-1221 | every job and snapshot name is a label of at most 63 characters as in section 2.3.1 of RFC 1035 |
| Names.JobNamesDiffer | internal/controller/networkprobelab_controller.go:1203-1211 | within one lab, nodes share a job name exactly if they share a digest |
| Names.SanitizedKeeps | internal/controller/networkprobelab_controller.go:1223-1243 | sanitizing keeps letters, in lower case, and digits; a text without any becomes "lab" |
| Names.AlnumExactly | internal/controller/networkprobelab_controller.go:1227 | which characters are kept |
| Names.WithDigestExactly | internal/controller/networkprobelab_controller.go:1203-1221 | a name is cut only where the digest needs the room, and then loses the dashes at its end |
| Names.GeneratedNamesExactly | internal/controller/networkprobelab_controller.go:1203-1221 | the names of labs that leave room for the digest are in the generated names in full |
| ProbeBinary.ProbePercentile | cmd/probe/main.go:120-140 | the truncating percentile equals the analyzer's for all fractions |
| ProbeBinary.RunCheck | cmd/probe/main.go:49-77 | the attempts end at the first failure, whose error is reported with the latencies before it |
| ProbeBinary.SuccessExactly | cmd/probe/main.go:49-77 | a result is a success exactly if every attempt got through |
| ProbeBinary.ResultExactly | cmd/probe/main.go:49-77 | a result has the error of the first attempt that fails, and as figures the median and the 95th percentile of the latencies before it |
| ProbeBinary.RunProbe | cmd/probe/main.go:31-39 | one result per check, in order, carrying the identity of the check |
| ProbeChecks.FilterRunnablePods | internal/controller/networkprobelab_controller.go:367-384 | exactly the running pods with address and node on an allowed node, sorted by name |
| ProbeChecks.DefaultProtocols | internal/controller/networkprobelab_controller.go:494-504 | TCP, or the configured protocols in upper case, sorted |
| ProbeChecks.DefaultProbePorts | internal/controller/networkprobelab_controller.go:506-542 | configured, else service, else container ports, else 80; positive, distinct, sorted |
| ProbeChecks.ServiceOrDefaultPorts | internal/controller/networkprobelab_controller.go:544-556 | the positive ports of the service sorted, repetitions kept, or the default |
| ProbeChecks.UniquePodNodes | internal/controller/networkprobelab_controller.go:558-571 | the distinct nodes of the pods, sorted |
| ProbeChecks.ListProbeChecks | internal/controller/networkprobelab_controller.go:386-457 | the nested loops list the checks of every source node, target, protocol and port |
| ProbeChecks.BuildProbeChecks | internal/controller/networkprobelab_controller.go:386-460 | the list is sorted by identifier; if identifiers tell checks apart it is completely fixed |
| CheckMeaning.ChecksAreWanted | internal/controller/networkprobelab_controller.go:386-460 | every check runs on the node of a listed pod, with a wanted protocol and port, and dials the address of a listed pod, the address of a listed service that has one, or the name of a listed service, as its path says |
| CheckMeaning.WantedChecksAreListed | internal/controller/networkprobelab_controller.go:386-460 | every wanted combination of node, target, protocol and port has such a check |
| CheckMeaning.PortsExactly | internal/controller/networkprobelab_controller.go:506-542 | which ports are wanted: configured ones, else those of services, else those of pods, else 80 |
| CheckMeaning.IdentifiersExactly | internal/controller/networkprobelab_controller.go:573-583 | the identifier of a check digests what the check dials |
| CheckMeaning.RunnableExactly | internal/controller/networkprobelab_controller.go:367-384 | a pod is kept, as often as it is listed, exactly if it runs, has an address and a node, and its node is allowed |
| CheckLaws.IdTextTells | internal/controller/networkprobelab_controller.go:573-583 | the text behind an identifier determines all six parts, even if a protocol contains a bar |
| CheckLaws.IdsTellChecks | internal/controller/networkprobelab_controller.go:407-451 | equal identifiers mean equal checks |
| CheckLaws.ChecksIgnoreOrder | internal/controller/networkprobelab_controller.go:386-460 | permuting pods, services, protocols or ports gives the same check list |
| CheckLaws.CheckCount | internal/controller/networkprobelab_controller.go:386-460 | the number of checks in closed form: pods times other nodes times protocols times ports, plus nodes times protocols times service ports for VIP and for DNS checks |
| CheckLaws.DocumentedVIPCount | internal/controller/networkprobelab_controller.go:422-438 | counting VIP checks over all services is right if and only if every service without a cluster address has no port to probe |
| CheckLaws.HeadlessServiceIsNotCounted | internal/controller/networkprobelab_controller.go:423 | a headless service for which the documented count is wrong |
| Finalizers.ObjectMeta.HasFinalizer | internal/controller/finalizers.go:19-26 | whether the finalizer is in the list |
| Finalizers.ObjectMeta.AddFinalizer | internal/controller/finalizers.go:28-34 | appended if it was not there, growing the backing array when it is full |
| Finalizers.ObjectMeta.RemoveFinalizer | internal/controller/finalizers.go:36-51 | compacting the shared backing array in place is order-preserving filtering |
| Finalizers.RemoveUndoesAdd | internal/controller/finalizers.go:28-51 | removing undoes adding |
| Finalizers.WithoutKeeps | internal/controller/finalizers.go:36-51 | every other finalizer stays as often as it was |
| Finalizers.WithoutConcat | internal/controller/finalizers.go:36-51 | the list is filtered item by item, in order |
| Finalizers.WithoutOne | internal/controller/finalizers.go:36-51 | an item alone stays exactly if it is another one |
| ProbeJobs.GroupByNode | internal/controller/networkprobelab_controller.go:587-595 | the map holds the checks of each source node in order; the nodes are sorted |
| ProbeJobs.HashChecks | internal/controller/networkprobelab_controller.go:691-697 | the hash is that of the checks sorted by identifier |
| ProbeJobs.OwnedBy | internal/controller/networkprobelab_controller.go:743-750 | whether some owner reference is the job with that UID |
| ProbeJobs.ReadProbeJobReport | internal/controller/networkprobelab_controller.go:715-741 | the first pod owned by the job whose probe container has terminated decides; an unreadable message is an error; the pod is stamped on every result |
| ReadingLaws.ReadExactly | internal/controller/networkprobelab_controller.go:715-741 | a report is read if and only if the first pod of the job whose probe container has terminated has one; a message that is no report is not replaced by a later one; every result gets the name and the address of the pod, and is otherwise as it was |
| ProbeJobs.ProbeJobDeadlineSeconds | internal/controller/networkprobelab_controller.go:699-713 | between two minutes and an hour; at least a minute more than all attempts of all checks may take, if and only if these take at most 3540 seconds |
| ProbeJobs.BudgetExactly | internal/controller/networkprobelab_controller.go:699-713 | a job gets the configured attempts and timeout, and a minute more than all attempts may take, within two minutes and an hour |
| ProbeJobs.DefaultsCount | internal/controller/networkprobelab_controller.go:699-713 | settings that are not positive count as one attempt of five seconds |
| ProbeJobs.DeadlineTooShort | internal/controller/networkprobelab_controller.go:699-713 | an instance: with one attempt of five seconds per check, 708 checks fit the deadline and 709 do not |
| ProbeJobs.JobStore.CreateJob | internal/controller/networkprobelab_controller.go:643-689 | the new job carries generation, hash, node, payload, attempts per check, seconds per attempt and its deadline under a fresh UID |
| ProbeJobs.JobStore.EnsureAndReadProbeJobs | internal/controller/networkprobelab_controller.go:585-641 | the pass over all nodes; after an error nothing more happens and earlier effects stay |
| JobLaws.OnePassDoes | internal/controller/networkprobelab_controller.go:585-641 | a pass without errors creates exactly the absent jobs, deletes exactly the stale ones, touches no others, is pending exactly if some node lacks a finished current job, and otherwise has the report of every node in order |
| JobLaws.PassFailsExactly | internal/controller/networkprobelab_controller.go:606-636 | a pass fails exactly if an API call fails, a finished current job has no readable report, or a current job has failed; it stops there, and a stale failed job never fails it |
| JobLaws.GroupsPartition | internal/controller/networkprobelab_controller.go:587-590 | grouping by source node loses and doubles no check |
| JobLaws.HashIgnoresOrder | internal/controller/networkprobelab_controller.go:691-697 | the hash does not depend on the order of the checks |
| JobLaws.HashTells | internal/controller/networkprobelab_controller.go:691-697 | among sorted lists, equal hashes mean equal checks |
| JobLaws.HashesIgnoreOrder | internal/controller/networkprobelab_controller.go:602-619 | permuting pods, services, protocols or ports leaves the hash of every node alone, so no current job looks stale |
| JobLaws.ReadingsInOrder | internal/controller/networkprobelab_controller.go:639 | reports that come from the nodes they name are already sorted |
| ProbeController.FoldReports | internal/controller/networkprobelab_controller.go:221-266 | one status result per reported result, in order; the two counters add up to their number and the first counts the successes |
| ProbeReconciler.CollectNodeResults | internal/controller/networkprobelab_controller.go:210-215 | one result per snapshot, of which the model keeps the node name and the reference, sorted by node; in these the unstable sort leaves no choice |
| ProbeReconciler.Cluster.WriteConfigMap | internal/controller/networkprobelab_controller.go:1094-1121 | created with label and key, or label and key added to what is there |
| ProbeReconciler.Cluster.WriteRawSnapshotConfigMaps | internal/controller/networkprobelab_controller.go:972-1031 | one ConfigMap per snapshot until a write fails, touching no other; references and sorted names; without a failure each snapshot is a key of a ConfigMap with the lab's label |
| ProbeReconciler.Cluster.WriteReportConfigMaps | internal/controller/networkprobelab_controller.go:270-287 | it fails exactly if the API call for an enabled report does; otherwise each enabled report is a key of a ConfigMap with the lab's label under its name; no other ConfigMap is touched and no key is lost |
| ProbeArtifacts.SnapshotsWritten | internal/controller/networkprobelab_controller.go:972-1031 | the snapshots up to the first failing write are there with label and key; writing fails exactly if a call does; nothing else is touched |
| ProbeArtifacts.ReportsWritten | internal/controller/networkprobelab_controller.go:270-287 | the same for the reports; the Excel report is there even if writing the HTML report fails |
| ProbeArtifacts.NodeObjectNamesExactly | internal/controller/networkprobelab_controller.go:1203-1221 | the name of a job or snapshot is made from the name of the lab and the digest of the node, in this order |
| ProbeArtifacts.ReportNamesExactly | internal/controller/networkprobelab_controller.go:1292-1304 | a report has its configured name, or one made from the name of the lab |
| ProbeArtifacts.CompleteNames | internal/controller/networkprobelab_controller.go:197-215 | a status refers only to ConfigMaps that the run has written with the lab's label |
| ProbeArtifacts.RunWrites | internal/controller/networkprobelab_controller.go:167-289 | a run only adds under its own names; with its results in, its snapshots are there, and its reports unless it failed; a pending run writes nothing |
| ProbeArtifacts.CompleteAgain | internal/controller/networkprobelab_controller.go:197-289 | completing the same run again writes what is there already |
| ProbeReconciler.Cluster.FinishRun | internal/controller/networkprobelab_controller.go:197-289 | the second half of a run, with what stays behind on each error path |
| ProbeReconciler.Cluster.RunNetworkProbe | internal/controller/networkprobelab_controller.go:167-289 | the whole run: errors without targets or checks, pending, failed, or complete |
| ProbeReconciler.Cluster.DeleteJobsByLabels | internal/controller/finalizers.go:67-79 | the labelled jobs are marked one by one until a call fails |
| ProbeReconciler.Cluster.DeleteConfigMapsByLabels | internal/controller/finalizers.go:89-101 | the labelled ConfigMaps are removed one by one until a call fails |
| ProbeReconciler.Cluster.CleanupNetworkProbeArtifacts | internal/controller/finalizers.go:53-60 | jobs first, and ConfigMaps only if that went through |
| ProbeReconciler.Cluster.Reconcile | internal/controller/networkprobelab_controller.go:53-151 | the whole new state of a pass: cleanup and finalizer removal, finalizer addition, or run and status |
| ProbeVerdict.Verdict | internal/controller/networkprobelab_controller.go:77-133 | the phase of a pass with something to probe: Failed exactly if a node fails, or nothing waits and an artifact or a result has failed; Running exactly if no node fails and some node waits; Succeeded exactly otherwise |
| ProbeVerdict.NothingToProbe | internal/controller/networkprobelab_controller.go:167-187 | without targets, services or checks a pass writes Failed and touches nothing else |
| ProbeVerdict.FailedJobShows | internal/controller/networkprobelab_controller.go:620-636 | a failed current job makes the next pass write Failed at the generation of the lab |
| ProbeVerdict.ReportsRecorded | internal/controller/networkprobelab_controller.go:197-266 | what a pass without failures records: the reports it reads from the jobs, with the pod behind a service where the probe saw none, and one node result and name per snapshot |
| ProbeVerdict.FinalizerFirst | internal/controller/networkprobelab_controller.go:63-76 | a lab without the finalizer only gets it |
| ProbeVerdict.CleanupExactly | internal/controller/finalizers.go:53-101 | a cleanup touches nothing without the label, takes ConfigMaps only after all jobs, and removes the finalizer, and with the last one the lab, exactly if no call fails |
| ProbeRuns.VisitsRecords | internal/controller/networkprobelab_controller.go:599-637 | whatever a pass does, each job of the lab is the one recorded under its UID, made for its node, with the hash of its payload |
| ProbeSafety.ReadHonest | internal/controller/networkprobelab_controller.go:715-750 | a report is only read off a pod of the job with the given UID and is what the probe program reported for that job's payload and number of attempts |
| ProbeSafety.CleanupComplete | internal/controller/finalizers.go:53-101 | a cleanup without errors leaves no live job and no ConfigMap with the lab's label |
| ProbeSafety.StepKeeps | internal/controller/networkprobelab_controller.go:53-151 | every step of anybody keeps the invariant |
| ProbeSafety.Always | internal/controller/networkprobelab_controller.go:53-151 | the invariant holds in every state of every run |
| ProbeSafety.EveryCheckOnce | cmd/probe/main.go:37-39 | the results behind a status answer every check of its list exactly once |
| ProbeSafety.ChecksAreDrawn | internal/controller/networkprobelab_controller.go:167-186 | in every state of every run, the checks behind a status are those that an earlier pass built, at the generation the status observed, from the spec the lab had then and the listed pods and services; the lab has that spec still unless its generation has grown |
| ProbeSafety.ResultsHaveSources | internal/controller/networkprobelab_controller.go:734-738 | every recorded result carries the name and the address of the pod its report was read from |
| ProbeSafety.Conservation | internal/controller/networkprobelab_controller.go:186-266 | in every state of every run, a status with results has TotalTests = Succeeded + Failed = number of results = number of checks, each check answered once, of the list that an earlier pass built from the lab's spec and the cluster |
| ProbeSafety.SucceededIsTrue | internal/controller/networkprobelab_controller.go:77-133 | in every state of every run, Succeeded at generation g means only successes, as many as tests, each from a pod, which it names, that is owned by a job annotated with g and the hash of exactly its node's checks, of the list that an earlier pass built at generation g |
| ProbeSafety.SucceededReachesAll | internal/controller/networkprobelab_controller.go:104-108 | in every state of every run, Succeeded means that for every check that an earlier pass built from the lab's spec and the cluster a probe program ran on a job made for it and every one of the configured number of attempts got through |
| ProbeReach.SucceededReachesTargets | internal/controller/networkprobelab_controller.go:104-108 | in every state of every run, Succeeded means that an earlier pass listed pods and services for which every wanted check was made on its node and all its attempts got through |
| ProbeSafety.RunningIsEmpty | internal/controller/networkprobelab_controller.go:93-102 | in every state of every run, Running carries no results, counts, node results or snapshot names of an earlier run |
| ProbeSafety.ArtifactsBelongToTheLab | internal/controller/networkprobelab_controller.go:63-75 | in every state of every run, a live job or a ConfigMap with the lab's label means that the lab is there with its finalizer |
| ProbeSafety.StatusRefersToArtifacts | internal/controller/networkprobelab_controller.go:197-215 | in every state of every run, while the lab is not being deleted, every snapshot its status refers to is a ConfigMap with its label, except those that others took away since |
| ProbeConvergence.CurrentJobSurvives | internal/controller/networkprobelab_controller.go:615-637 | no pass, failing or not, changes a current job |
| ProbeConvergence.DistanceFalls | internal/controller/networkprobelab_controller.go:599-638 | no step moves away from the end, every productive step moves towards it |
| ProbeConvergence.Convergence | internal/controller/networkprobelab_controller.go:599-638 | from any reachable state, with lab and checks fixed, no expiry and no job failure, there are at most four productive steps per node, whatever API calls fail |
| ProbeConvergence.SettledExactlyAtZero | internal/controller/networkprobelab_controller.go:98-108 | in a healthy state a pass without failing calls leaves Running exactly when the distance is zero |
| ProbeConvergence.ProgressPossible | internal/controller/networkprobelab_controller.go:599-638 | in a healthy state away from the end, a productive step is possible |
| ProbeCompletion.CanAdvance | internal/controller/networkprobelab_controller.go:599-638 | while nothing has gone wrong and the end is not reached, some steps lead closer and nothing goes wrong in them |
| ProbeCompletion.LastPass | internal/controller/networkprobelab_controller.go:93-108 | at distance zero, with only successful reports, a faultless pass writes Succeeded |
| ProbeCompletion.CanSucceed | internal/controller/networkprobelab_controller.go:53-151 | from every reachable state in which nothing has gone wrong, some run without edits leads to Succeeded |
| ProbeCompletion.NewLabSucceeds | internal/controller/networkprobelab_controller.go:53-151 | from every initial state, for every new lab with something to check, some run leads to Succeeded at the generation of the lab, which keeps its spec |
| ProbeStability.SecondPassChangesNothing | internal/controller/networkprobelab_controller.go:53-151 | at the end, a pass changes no job, and repeating it in the same world changes nothing at all |

## Left out

- HTTP, the Prometheus client, JSON, gzip, files, subprocesses and the Kubernetes client: store reads and writes with
  failure flags, and oracles (`World`, `Network`), stand for them.
- Excel and HTML rendering, the ResourceAnalyzerLab controller with its monitoring stack, conditions and events, API types,
  deep copies, manifests and entry points.
- CNI detection, IPVS counters, kube-proxy mode inference, and the parts of `CorrelateDatapath` besides the traced path:
  relevant chains and conntrack or IPVS tuple matching, which take any substring as a match.
- Node addresses, the datapath part of a status result and the correlation of a service with a backend pod: the backend is
  an oracle that may fill in the target pod, its address and its node.
- The truncation of snapshots and of command output, and the size limit of a termination message; a report cut short is an
  unreadable one.
- What a job that outlives its deadline does beyond failing.
- Floating-point rounding, NaN and infinities, integer overflow and wall-clock time; `MinAvgMax` starts from the first
  value where the code starts from infinities.
- SHA-1 itself; digests are functions as described above. `path.Match` is a predicate.
- Letters beyond ASCII in case mapping, except for the four that `strings.EqualFold` folds to ASCII letters.
- The wording of the fixed chain purposes, which is a datatype here, and the wording of the Reason text
  of a recommendation, of which the model keeps the percentiles and the language it names.
- Labs whose names sanitize to the same base, ConfigMap names shared between labs, and stripping the operator's finalizer
  by hand.
- ProbeJobs.JobStore.EnsureAndReadProbeJobs: reports with the same source node keep the order in which they were read, where
  `sort.Slice` promises none; in a run no two reports share one (`JobLaws.ReadingsInOrder`).
- ProbeArtifacts.ReportsWritten: the content of a report or a snapshot is not modelled, only its key in the ConfigMap.
- ProbeReconciler.Cluster.DeleteJobsByLabels: the API server lists objects by name; only which objects are left after a
  failing call depends on it.
- ProbeJobs.JobStore.CreateJob: the image, the retry limit and the time to live of the job are not modelled; a failing
  create has no effect, where a real one may have taken effect unseen.
- ProbeReconciler.CollectNodeResults: the network data of a snapshot is not modelled. Agents that report one node name for
  two nodes give results that differ in it, and then the unstable sort may put them in either order.
- ProbeSafety.SucceededIsTrue: says nothing about how old the written status is; a later edit of the lab leaves it in place
  until the next pass, and it names the generation it belongs to.

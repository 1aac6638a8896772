# Verified model of the causal correlation engine

The correlation engine watches the pods of a cluster through resource-stall signals. Every few seconds it
resamples the raw samples onto one time grid, detects which pods deviate from their own normal, admits causal
edges between pods that share a resource, ranks root causes, predicts next victims, and folds the result into a
persistent memory of edges, incident cases and baselines. It decides without any model of language: it is
deterministic, and that makes it provable. This project models that engine, its memory, the service round
around them and the fairness index of the API, in Dafny, and proves what they guarantee over every input and
every run.

How the model follows the program:

- Code that works step by step is a method with loops and invariants: the worklist of `_forward_impact`, the
  breadth-first `blast_radius`, the CUSUM scan, the two-pointer resampler, the edge loops of `run_pass`,
  `merge_graphs`. The persistent memory is the class `MemoryService.Memory`, whose fields are the tables and
  whose methods update them row by row. Each method is proved against a specification function or predicate,
  and the laws are lemmas about that specification.
- Numbers are `real`, without rounding. Square roots are avoided: a correlation of at least one half is stated
  on squares. The per-lag correlation is an arbitrary function with values in [-1, 1].
- Python dicts whose order matters are `Common.Dict` (keys in insertion order and a map).
- A case id is the case's key itself (the program hashes the key).

The modules, bottom up: `Common`, `Ordering`, `Statistics`, `Config`, `Workload` (vocabulary); `Digraph`, `Impact`,
`ImpactOrder`, `Ranking`, `StarVerdict`, `BlastRadius`, `Renaming` (ranking.py); `Detectors`, `OnsetLaws`, `Forecast`
(detection and memory-limit forecast); `LagCorrelation`, `Gate`, `Detection`, `Pipeline`, `CorrelationPass`, `PassLaws`
(one pass); `CausalGraph`, `EdgeMemory`, `EdgeTable`, `CaseLibrary`, `Promotion`, `Baselines`, `GraphMemory`,
`ObservedRows`, `MemoryService` (the memory); `CaseLeads`, `SeedSafety` (the memory fed by passes); `Restart`
(restarted pods); `Merge`, `ServedGraph`, `Resampling`, `Service` (the service round); `Gini` (fairness).

## Where the program falls short of its description

Each of these is a lemma, with the exact condition where there is one.

- `blast_radius` keeps the first visit, not the best: a victim can be missed (`BlastRadius.DetourHidesVictim`). Its
  report is complete and exact exactly when, to every node, the walks with the fewest hops are the best ones
  (`BlastRadius.ReportIsExactIff`, for graphs on which walks that tie for the fewest hops carry the same impact; each
  half also without that: `BlastRadius.FewestBestIsExact`, `BlastRadius.ExactMeansFewestBest`).
- A cause can be ranked below its victim (`Ranking.VictimCanOutrankCause`). For a cause with one effect,
  `Ranking.CauseOutranksVictimIff` says exactly when, on every graph and for every symptom set. Where nothing points at
  the cause and the hop loses no symptom its weight has an exact threshold (`Ranking.ThresholdWhenNoneLost`): 5/7 if
  neither is a symptom, less if the victim is one and does not reach itself; the victim of every write-evidenced edge of
  a pass without a breach list is one (`PassLaws.SourceVictimIsSymptom`). With n effects that are symptoms as well it is
  5n / (10 + 7n) (`StarVerdict.StarVerdictIff`), so a writer with an edge of one half is ranked below a victim with four
  (`StarVerdict.SymptomaticVictimCanOutrank`). Above any such threshold the cut can still take a symptom from the cause,
  also with edges as strong as a pass makes them (`Ranking.StrongCauseCanBeOutranked`).
- Alarms respect the warmup, onsets need not, and onsets of different directions can come out of order
  (`OnsetLaws.OnsetInsideWarmupIff`, `OnsetLaws.OutOfOrderIff`); both happen on signals that are given
  (`OnsetLaws.OnsetInsideWarmupHappens`, `OnsetLaws.OutOfOrderHappens`).
- A visible edge is never hidden again exactly when its floor has reached the hide level or nothing decays
  (`EdgeMemory.PermanentIff`). With the default parameters two confirmations are enough for the former
  (`EdgeMemory.TwoConfirmsArePermanent`).
- The floor of a row stays at or below its confidence in every run exactly when one confirmation reaches the prior, from
  the lowest floor or, where nothing decays, from the lowest confirmed confidence (`EdgeMemory.PriorIsSafeIff`); nothing
  checks this of the parameters. Only a caller that confirms a pair in a pass that does not seed it and seeds it later
  can break it. The service is no such caller: there it holds for every prior (`SeedSafety.FloorsHoldInService`). What
  is visible is believed at the hide level or above for every prior and every caller (`EdgeMemory.VisibleIsConfident`).
- `typical_lead_time_s` stops being a mean once an incident with an unknown lead has been folded in
  (`CaseLibrary.MeanSurvivesIff`). Only graphs made by hand can do that (`CaseLeads.HandmadeLeadIsSkewed`): every
  incident of a pass has a known lead, and over every run of passes the stored lead is the exact mean
  (`CaseLeads.PassLeadIsKnown`, `CaseLeads.StoredLeadIsMean`).
- `merge_graphs` keeps, of two signals' edges for the same ordered pair, the one of the later signal, however weak
  (`ServedGraph.CoversIff`). What a signal's graph explains is still explained as well by the union exactly when each of
  its surviving hops is (`ServedGraph.MergingKeepsImpactIff`). With edges as strong as every pass makes them, this can
  replace the cause by its victim in the verdict, and `ServedGraph.LaterDuplicateDemotesCause` says exactly when: a
  later edge below 5/7 does. If the signal that seeds
  shared-disk pairs is not the first one configured, the correlation 0 of a freshly seeded pair can remove the root
  altogether (`ServedGraph.SeededPairHidesRoot`); by default psi_io is the only signal that seeds, and it is first.
- The guard in `merge_graphs` against symptoms that are off the graph is described as mirroring `_render`, but
  `_render` has no such guard (`ServedGraph.RenderingBlamesBackbone`, `ServedGraph.BackboneIsBlamed`,
  `ServedGraph.MergingDoesNot`).
- The pass judges deviation on the recent tail, the baseline learner on the whole vector; so a pod can be reported
  and learned in the same round (`Service.ReportedIsLearnedIff`, `Service.ShortStormIsReportedAndLearned`).
- The direction of a correlation edge depends on the alphabetical order of the pods when both directions are
  equally strong (`LagCorrelation.SwapFlipsDirectionIff`).

## Model

| member | source | states |
|---|---|---|
| Workload.JoinUndoesSplit | correlation/engine/state.py:32-35 | splitting a name at dashes and joining it again gives the name back |
| Workload.SplitUndoesJoin | correlation/engine/state.py:32-35 | joining dash-free parts and splitting gives the parts back |
| Workload.GenerationIsForgotten | correlation/engine/state.py:32-35 | for every name w and dash-free suffixes, the workload of w-a-b is w |
| Workload.WorkloadOfPod | api/main.py:284-287 | exactly which pod names belong to a workload |
| Digraph.BuildGraph | correlation/engine/ranking.py:17-21 | builds a valid digraph: nodes are distinct, arcs end in nodes, one arc per ordered pair |
| Digraph.ArcIsLastEdge | correlation/engine/ranking.py:17-21 | the arc of an ordered pair is the last edge given for it, with weight abs(r) |
| Digraph.NodesAreEndpoints | correlation/engine/ranking.py:17-21 | the nodes are the endpoints of the edges and nothing else |
| Digraph.SurvivingWalksAreShort | correlation/engine/ranking.py:12-13 | a walk whose decayed product survives the cut has at most five hops |
| Impact.ForwardImpact | correlation/engine/ranking.py:24-36 | the worklist terminates on cyclic graphs and returns the best impact of every node |
| Impact.BestImpactIsBestWalk | correlation/engine/ranking.py:24-36 | that impact is the maximum, over non-empty walks of any length, of the product of weight times decay; a node has one exactly when that maximum reaches the cut |
| Ranking.RankRootCauses | correlation/engine/ranking.py:39-70 | scores, penalises, sorts and normalises as the ranking specification says |
| Ranking.RankingIsNormalised | correlation/engine/ranking.py:61-70 | scores are positive, at most 1, sum to at most 1, do not increase, and break ties by earlier onset |
| Ranking.RankedPodsDiffer | correlation/engine/ranking.py:51-70 | no pod is ranked twice |
| Ranking.EveryVerdictExplains | correlation/engine/ranking.py:51-60 | a ranked pod is a symptom with nothing upstream or reaches a symptom |
| Ranking.VerdictIffExplainer | correlation/engine/ranking.py:47-61 | there is a verdict exactly when there is an edge and some node explains a symptom |
| Ranking.TopVerdictIsMaximal | correlation/engine/ranking.py:62-70 | no node scores higher than the first verdict |
| Ranking.RankingIsTheTop | correlation/engine/ranking.py:45-70 | there is an order of all nodes that explain anything, by score and then by onset with unknown onsets last, of which the list is the beginning: as long as asked for or as the order, each pod with its score divided by the sum of all scores |
| Ranking.RankedPodHasEdge | correlation/engine/ranking.py:51-60 | on a graph made of edges a ranked pod is the source of an edge |
| Ranking.CauseAgainstVictim | correlation/engine/ranking.py:51-59 | an uncaused cause scores at least 1.4 times weight times its victim if no symptom is lost on the hop, hence no less from weight 5/7 on |
| Ranking.WeakCauseIsOutranked | correlation/engine/ranking.py:51-59 | an uncaused cause whose one edge weighs less than 5/7 scores less than its victim, unless one of the two is a symptom or the victim explains nothing |
| Ranking.CauseOutranksVictimIff | correlation/engine/ranking.py:51-59 | a cause with one effect is ranked no lower exactly when what it explains over that arc (the effect itself if that is a symptom in reach, and one hop weaker the symptoms beyond it that survive the hop) makes up for all the effect explains; without a cause of its own that counts twice, and 2 more if it is a symptom |
| Ranking.OutranksUnlessSymptomIff | correlation/engine/ranking.py:51-59 | in particular, with no cause of its own and neither of the two a symptom: when twice its weakened share of the surviving symptoms does |
| Ranking.ThresholdWhenNoneLost | correlation/engine/ranking.py:51-59 | for an uncaused cause, where no symptom is lost on the hop, exactly from weight 5/7 (S - 2[cause is a symptom]) / (S + [victim is a symptom]) on, S being all the victim explains; 5/7 if neither is a symptom; a victim that is one must be in reach of the cause and not reach itself |
| StarVerdict.StarVerdictIff | correlation/engine/ranking.py:51-59 | a cause whose victim and the n effects of that are all the symptoms is ranked no lower exactly from weight 5n / (10 + 7n) on |
| StarVerdict.StarShape | correlation/engine/ranking.py:17-21 | such graphs are built from n + 1 edges, for every n |
| StarVerdict.SymptomaticVictimCanOutrank | correlation/engine/ranking.py:51-59 | with four effects the cause is ranked below its victim over an edge of 0.5 and no lower over one of 0.6, which is below 5/7 |
| Ranking.StrongCauseCanBeOutranked | correlation/engine/ranking.py:31-59 | on a chain of weights 0.8, 0.5 and 0.8 the cause is ranked below its victim, because the cut takes the symptom from it |
| Ranking.LongChainShape | correlation/engine/ranking.py:17-21 | three edges as strong as a pass makes them are such a chain |
| Ranking.SuccessorImpact | correlation/engine/ranking.py:24-36 | a node with one successor reaches it over that arc and over nothing stronger |
| Ranking.ImpactBeyond | correlation/engine/ranking.py:24-36 | beyond its one successor a node reaches exactly what the successor reaches, one hop weaker |
| Ranking.ChainVerdictIff | correlation/engine/ranking.py:51-59 | on a chain of cause, victim and symptom the cause is ranked no lower exactly when its hop weighs at least 5/7 and the symptom survives it |
| Ranking.VictimCanOutrankCause | correlation/engine/ranking.py:51-59 | over a first hop of weight one half the victim outscores its cause |
| BlastRadius.BlastRadius | correlation/engine/ranking.py:73-90 | lists every visited node once and never the root, each with product and lag sum of its tree path, closed under surviving hops, strongest first |
| BlastRadius.HitIsBelowBest | correlation/engine/ranking.py:77-89 | a reported impact and delay belong to one simple path of at most five hops, and never beat the best walk |
| BlastRadius.DirectSuccessorIsHit | correlation/engine/ranking.py:80-89 | a direct successor above the cut is listed with exactly its own weight and lag |
| BlastRadius.ReportIsExactIff | correlation/engine/ranking.py:73-90 | the report is complete and exact exactly when fewest hops are best to every node, where ties for the fewest hops carry the same |
| BlastRadius.FewestBestIsExact | correlation/engine/ranking.py:78-89 | if to every node the walks with the fewest hops are the best ones, every impact is the best one and nothing is missed |
| BlastRadius.ExactMeansFewestBest | correlation/engine/ranking.py:78-89 | if every reported impact is the best one, every reachable node has a walk with the fewest hops that is the best one, the one the search took |
| BlastRadius.UniformWeightsAreExact | correlation/engine/ranking.py:73-90 | with equal weights fewest hops are best, so impacts are exact and nothing is missed |
| BlastRadius.DetourHidesVictim | correlation/engine/ranking.py:84-85 | a graph on which a node reached by the forward impact is never predicted |
| Detectors.Ewma | correlation/engine/detectors.py:12-18 | the loop computes the exponentially weighted average |
| Detectors.PeakIsLargestWindow | correlation/engine/detectors.py:53-54 | the clamped running sum is the largest window sum ending at the sample, or 0 |
| Detectors.FiresIffPeakExceeds | correlation/engine/detectors.py:55-62 | the statistic exceeds h exactly when some window since the last reset carries more than h |
| Detectors.AlarmsAreSpaced | correlation/engine/detectors.py:51-62 | alarms are inside the series, not before arming, at least three samples apart |
| Detectors.NextAlarmIsFirst | correlation/engine/detectors.py:52-62 | the next alarm is the first armed sample at which a window since the last alarm exceeds h, upward first; if there is none, no armed sample does |
| Detectors.Scan | correlation/engine/detectors.py:49-63 | the scan loop reports exactly the alarms of the window definition, backtracked |
| Detectors.CusumOnsets | correlation/engine/detectors.py:28-63 | smoothing, residuals, robust scale and scan together give the onsets of the signal |
| Detectors.Backtrack | correlation/engine/detectors.py:66-71 | the walk back returns the backtracked index |
| Detectors.BacktrackMeans | correlation/engine/detectors.py:66-71 | it is the start of the longest unbroken stretch above 0.5 before the alarm |
| Detectors.BacktrackMonotone | correlation/engine/detectors.py:66-71 | a later alarm of the same direction never backtracks further |
| Detectors.SameDirectionInOrder | correlation/engine/detectors.py:55-71 | onsets of one direction are in order |
| Detectors.OnsetsInSignal | correlation/engine/detectors.py:42-71 | onsets are samples of a series that is long enough |
| OnsetLaws.OnsetInsideWarmupIff | correlation/engine/detectors.py:55-71 | an onset of a signal lies inside the warmup exactly when the stretch before its alarm reaches back into it unbroken |
| OnsetLaws.OnsetInsideWarmupHappens | correlation/engine/detectors.py:55-71 | a signal whose first onset, a strong one, lies inside the warmup |
| OnsetLaws.SignalHasResiduals | correlation/engine/detectors.py:44-45 | every sequence of residuals that starts with 0 is that of some signal |
| OnsetLaws.SignalHasScores | correlation/engine/detectors.py:44-48 | every z-series that starts with 0 and does not vary in the quiet prefix is that of some signal |
| OnsetLaws.StepResponse | correlation/engine/detectors.py:12-18 | a step leaves a residual of its height, then of 1 - alpha times that, and so on |
| OnsetLaws.ScoresAreCausal | correlation/engine/detectors.py:44-48 | beyond the quiet prefix no score depends on later samples |
| OnsetLaws.QuietPrefixMeans | correlation/engine/detectors.py:46 | the scale is set by a third of the series, but at least 24 and at most 60 samples |
| OnsetLaws.SmallResidualsAreSilent | correlation/engine/detectors.py:21-62 | residuals within 0.7413 median deviations of the quiet prefix raise no alarm |
| OnsetLaws.OnsetIsExplained | correlation/engine/detectors.py:53-71 | every onset starts the unbroken stretch to a sample whose score is its sharpness and at which some window carries more than 5 |
| OnsetLaws.LateIsOnset | correlation/engine/detectors.py:28-63 | a disturbance after a long enough rest is a strong onset, however short it is |
| OnsetLaws.OutOfOrderIff | correlation/engine/detectors.py:55-71 | two onsets of opposite directions are out of order exactly when the stretch before the later alarm covers the earlier alarm and the sample before it |
| OnsetLaws.OutOfOrderHappens | correlation/engine/detectors.py:55-71 | a signal whose second and third onset are out of order |
| Detectors.NoiseIsSilent | correlation/engine/detectors.py:52-63 | residuals within k deviations raise no alarm, however long the series |
| Detectors.OffsetKeepsOnsets | correlation/engine/detectors.py:44-48 | adding a constant to the signal moves no onset |
| Forecast.NormalEquations | correlation/engine/detectors.py:105-106 | the fitted line leaves no residual in sum and first moment |
| Forecast.LeastSquares | correlation/engine/detectors.py:105-106 | no line has a smaller squared error |
| Forecast.TrendIff | correlation/engine/detectors.py:105-108 | a series is trending exactly when its fitted line rises and leaves at most three quarters of the squared deviation from the mean |
| Forecast.ForecastMeans | correlation/engine/detectors.py:102-112 | there is a forecast exactly for a trending series below the limit that reaches it within the hour, and then the slope takes the last value to the limit at that time |
| Forecast.RampIsForecast | correlation/engine/detectors.py:102-112 | an exact ramp of positive slope is recovered and forecast along its own line |
| Forecast.FitSegment | correlation/engine/forecast.py:26-35 | the fitted segment is the suffix from the computed start |
| Forecast.FitLength | correlation/engine/forecast.py:31-35 | its length is between min_n and max(tail, min_n), and it starts at or after the last upward onset unless min_n forbids |
| Forecast.FitIsLongest | correlation/engine/forecast.py:31-35 | the segment starts at the first sample that leaves at most the tail, at least min_n and nothing before an upward onset; where there is none it has exactly min_n samples, and a series of at most min_n is fitted whole |
| Forecast.AnchorIsLatestUp | correlation/engine/forecast.py:32-33 | the last upward onset in the list is the latest one |
| Forecast.IncipientFindings | correlation/engine/forecast.py:38-80 | collects and sorts exactly the warnings of the pods |
| Forecast.ServedWarnings | correlation/engine/forecast.py:53-80 | the list is soonest first and holds a warning exactly when its pod has a limit, data and a forecast |
| Forecast.WarningIsEarned | correlation/engine/forecast.py:54-70 | a warned pod is past the fraction of its limit and its fitted slope reaches the limit at the stated time, within the horizon |
| Forecast.WarnedIff | correlation/engine/forecast.py:54-70 | a pod is warned of exactly when its limit is positive, its last value past the fraction of it, and the fitted segment a trend that reaches the limit within the hour and the horizon |
| Forecast.WarningSays | correlation/engine/forecast.py:67-77 | the warning names the pod, its value and limit, the time at which the slope meets the limit, and the part of the limit that is left |
| LagCorrelation.LagProfile | correlation/engine/lagcorr.py:34-42 | the loop computes the profile over the configured lags |
| LagCorrelation.ProfileMeans | correlation/engine/lagcorr.py:34-42 | a profile has, in order and once each, the configured lags that leave more than twelve samples, each with the coefficient of the first vector against the second that much later |
| LagCorrelation.StrongestIsPeak | correlation/engine/lagcorr.py:55-56 | the choice is the greatest coefficient in magnitude over the usable lags, at the least such lag; 0 at lag 0 where none is usable |
| LagCorrelation.SupportMeans | correlation/engine/lagcorr.py:63-70 | a peak is supported exactly when the coefficient at the configured lag before or after it, if usable, is at least the floor in magnitude |
| LagCorrelation.StrongestMeans | correlation/engine/lagcorr.py:55-56 | the chosen sample has the greatest magnitude |
| LagCorrelation.HighestMeans | correlation/engine/pipeline.py:36 | the source edge's sample has the greatest value |
| LagCorrelation.BestDirectedIsBounded | correlation/engine/lagcorr.py:45-60 | the chosen correlation is in [-1, 1] and its lag non-negative |
| LagCorrelation.SwapFlipsDirectionIff | correlation/engine/lagcorr.py:57-60 | swapping the pods swaps the direction exactly when the two differ by more than the margin |
| Gate.KindsMeans | correlation/engine/gate.py:37-47 | which relation gives which tag; a network dependency counts in either direction |
| Gate.CouplesMeans | correlation/engine/gate.py:49-63 | coupling is network or shared disk, for sources also co-location; it is symmetric; pressure never couples |
| Gate.AcceptIff | correlation/engine/gate.py:66-94 | an edge is accepted exactly when its coefficient is at least 0.6, supported by 0.4, its pods have a network dependency or share a disk, and its onsets, if known, are at most 10 s out of order and not more than 4 lags and 10 s apart |
| Gate.AcceptedEdge | correlation/engine/gate.py:93-94 | an accepted edge carries its ends, its strength and lag, and exactly these tags: statistics, every relation of its pods, temporal iff both onsets are known; never the write tag |
| Gate.PressureNeverAdmits | correlation/engine/gate.py:81-85 | co-pressure and co-location never change the decision |
| Detection.DetectIncidents | correlation/engine/pipeline.py:74-89 | keeps exactly the pods with a strong onset that exceed their threshold, with their strong onsets; any vector may be empty |
| Detection.CoupledPodsMeans | correlation/engine/pipeline.py:96-98 | the pods coupled to another disturbed pod |
| Detection.CentreIsSharpest | correlation/engine/pipeline.py:99-105 | the event centre is an onset of a candidate with the greatest magnitude |
| PassLaws.CentreIsCoupled | correlation/engine/pipeline.py:90-106 | the event centre is the sharpest strong onset of the active pods that share a resource with another one, and only if there are none of all active pods |
| Detection.EventOnset | correlation/engine/pipeline.py:113-115 | each pod's onset is one of its onsets, none nearer to the centre |
| Detection.WriteOnsets | correlation/engine/pipeline.py:124-132 | exactly the disturbed writers, each with its own event onset |
| Pipeline.CollectPairEdges | correlation/engine/pipeline.py:150-167 | the nested loop over pod pairs collects the admitted pair edges in order |
| Pipeline.PairEdgeMember | correlation/engine/pipeline.py:151-167 | an edge is collected exactly when some pair i < j admits it |
| Pipeline.PairEdgeMeans | correlation/engine/pipeline.py:151-167 | a pair edge joins the pair, is at least R_PEAK strong, coupled, in temporal order and claims no source |
| Pipeline.PairEdgeIff | correlation/engine/pipeline.py:158-167 | the edge of a pair points from the pod whose own peak is the greater by more than the margin, else from the first; it exists exactly when something is active and that peak is strong, supported, coupled and in order, and carries its strength and lag |
| Pipeline.CollectSourceEdges | correlation/engine/pipeline.py:172-192 | the nested loop over writers and victims collects the source edges in order |
| Pipeline.SourceEdgeMember | correlation/engine/pipeline.py:174-192 | an edge is collected exactly when some writer and victim admit it |
| Pipeline.SourceEdgeMeans | correlation/engine/pipeline.py:25-44 | a source edge points from a disturbed writer to a less active victim on the same resource, not after it, and carries the write tag |
| Pipeline.SourceEdgeIff | correlation/engine/pipeline.py:25-44 | there is a source edge exactly from a disturbed writer to another, active pod on its resource that writes less, if the highest coefficient of its writes against the stall is at least 0.5, supported and not late; it carries that coefficient and its lag |
| Pipeline.PeakAbsMeans | correlation/engine/pipeline.py:173 | write activity is the largest magnitude written |
| Pipeline.ChooseEdges | correlation/engine/pipeline.py:195-199 | the dedup loop computes the chosen edges |
| Pipeline.ChosenMeans | correlation/engine/pipeline.py:20-22 | one edge per unordered pair, and for every edge one that is no worse in the preference order |
| Pipeline.EdgesAreCorrelations | correlation/engine/pipeline.py:148-200 | every edge of a pass is a correlation between R_SRC and 1 |
| CorrelationPass.WindowIsInside | correlation/engine/pipeline.py:139-146 | the analysis window is a non-empty slice of the series |
| CorrelationPass.RunPass | correlation/engine/pipeline.py:47-212 | a whole pass: detection, edges, ranking and blast radius as specified; it raises when a writer has no sample in what is correlated |
| PassLaws.FindingsInOrder | correlation/engine/pipeline.py:111-122 | one finding per incident pod and no others, in order of onset |
| PassLaws.FindingMeans | correlation/engine/pipeline.py:111-122 | a finding tells the time, the sharpness and the number of its strong onsets, taken from the one nearest to the centre; edges and ranking use the same onset |
| PassLaws.WriterOnsetMeans | correlation/engine/pipeline.py:124-132 | a writer is disturbed exactly when its own signal has a strong onset, from the one nearest to the same centre on |
| PassLaws.OneStretchForAll | correlation/engine/pipeline.py:139-146 | with a window all vectors and all writes are correlated over one stretch, which starts as nearly as the series allows a third of the window before the centre and contains it |
| PassLaws.WholeWithoutWindow | correlation/engine/pipeline.py:139-146 | without a window everything is correlated whole |
| PassLaws.SliceContinues | correlation/engine/pipeline.py:145-146 | a slice continues its start and is as long as asked for or as the series reaches |
| PassLaws.VerdictOfPass | correlation/engine/pipeline.py:202-205 | the verdict is the first three of all pods that explain any symptom, in order; the symptoms are the breach list, or without one the active pods, as far as on the graph, and all nodes if none is |
| PassLaws.EveryEdgeIsLawful | correlation/engine/pipeline.py:148-200 | every edge joins two different, witnessed pods, meets the strength of its gate and respects the onset order |
| PassLaws.NoSymptomNoVerdict | correlation/engine/pipeline.py:148-205 | without findings there is no edge, no root cause and no blast radius |
| PassLaws.SourceEdgesAreAcyclic | correlation/engine/pipeline.py:188-189 | write-evidenced edges never form a cycle |
| PassLaws.SourceEdgesAreTimed | correlation/engine/pipeline.py:40-44 | every write-evidenced edge points at a finding, carries temporal evidence, and starts at most 10 s after its victim |
| PassLaws.SourceVictimIsSymptom | correlation/engine/pipeline.py:203-204 | without a breach list the victim of every write-evidenced edge is one of the symptoms that are ranked against |
| PassLaws.OneEdgePerPair | correlation/engine/pipeline.py:193-200 | at most one edge per unordered pair, with or without write signals |
| PassLaws.EdgesInOrder | correlation/engine/pipeline.py:200 | with write signals the edges come in order of source, then target |
| PassLaws.AdmittedIsRepresented | correlation/engine/pipeline.py:193-200 | for every admitted edge the pass has one between the same pods that stands for it: a source edge for anything weaker or without a source, another edge only for what is neither stronger nor a source |
| EdgeMemory.SeedAloneKeepsRowIff | correlation/engine/state.py:322-326 | seeding keeps floor <= confidence exactly when the confidence is at least the prior |
| EdgeMemory.ConfirmKeeps | correlation/engine/state.py:328-352 | confirming restores the row invariant after seeding, raises confidence and floor, keeps visibility |
| EdgeMemory.StepKeeps | correlation/engine/state.py:263-267 | a whole pass keeps 0 <= floor <= confidence <= 1 and visible implies confidence >= hide, never lowers the floor, never drops the row |
| EdgeMemory.RunKeeps | correlation/engine/state.py:250-267 | the same over any run |
| EdgeMemory.ConfirmingPass | correlation/engine/state.py:328-376 | after a confirming pass an edge is visible exactly if it was or its confidence has reached show; hits count the confirmations; strength, lag, evidence and times are those of the last one |
| EdgeMemory.QuietPass | correlation/engine/state.py:298-398 | a pass without confirmation takes the part of the confidence down to the floor and hides the edge exactly if that leaves less than hide; a seeded pair starts at the prior, invisible and without hits; the phase follows |
| EdgeMemory.AbsentPass | correlation/engine/state.py:385-386 | while a workload is gone its rows neither decay nor are seeded |
| EdgeMemory.HitsAreConfirms | correlation/engine/state.py:341 | over every run hits is the number of confirmations |
| EdgeMemory.VisibleReachedShow | correlation/engine/state.py:342-348 | in every run whatever is visible had a confidence of at least show after some pass |
| EdgeMemory.OneSightingIsNotShown | correlation/engine/state.py:342-390 | with no prior and no floor, an edge seen once and then absent has confidence 0.36 and is not visible |
| EdgeMemory.FlooredEdgeNeverHides | correlation/engine/state.py:386-390 | a visible edge whose floor reached hide stays visible in every later state |
| EdgeMemory.ConfirmsClosedForm | correlation/engine/state.py:337-340 | n confirmations give 1 - (1 - alpha)^n (1 - c) |
| EdgeMemory.DecayClosedForm | correlation/engine/state.py:386-390 | k absent passes give the larger of the floor and the decayed confidence |
| EdgeMemory.FallNIsPower | correlation/engine/state.py:387 | k decays multiply by (1 - decay)^k |
| EdgeMemory.ShownEdgeOutlivesDecays | correlation/engine/state.py:342-390 | an edge that reached show stays visible while show (1 - decay)^k >= hide, k counting decaying passes only |
| EdgeMemory.EightDecaysAreHeld | correlation/engine/state.py:59-73 | at the defaults eight decaying passes never hide it |
| EdgeMemory.NinthQuietPassHides | correlation/engine/state.py:59-73 | at the defaults, from show or below, nine quiet passes hide it, if the floor is below hide |
| EdgeMemory.QuietVisibleIff | correlation/engine/state.py:386-390 | after k quiet passes an edge is visible exactly when it was and its floor or its decayed confidence reaches hide |
| EdgeMemory.LongSilenceHides | correlation/engine/state.py:386-390 | an edge with its floor below hide is hidden by any silence of more than 1 / (decay * hide) passes |
| EdgeMemory.PermanentIff | correlation/engine/state.py:342-390 | a visible edge stays visible in every run exactly when nothing decays or its floor has reached hide |
| EdgeMemory.TwoConfirmsArePermanent | correlation/engine/state.py:342-352 | at the defaults an edge confirmed twice is visible for ever |
| EdgeMemory.PriorIsSafeIff | correlation/engine/state.py:298-390 | the floor stays below the confidence in every run exactly when one confirmation reaches the prior: from the lowest floor, or without decay from the lowest confirmed confidence |
| EdgeMemory.SeededRunIsSafe | correlation/engine/state.py:298-390 | if every pass that confirms a pair seeds it, prior <= floor <= confidence in every run, for every prior |
| EdgeMemory.UnseededRunIsSafe | correlation/engine/state.py:328-390 | a pair that is never seeded keeps its floor at or below its confidence |
| SeedSafety.ConfirmedIsSeeded | correlation/service.py:166-176 | on a disk signal every confirmed pair, in name order, is seeded in the same pass |
| SeedSafety.FloorsHoldInService | correlation/service.py:194-200 | in every run of passes of one signal every row keeps its floor at or below its confidence, for every prior |
| EdgeMemory.VisibleIsConfident | correlation/engine/state.py:298-390 | in every run, for every prior, a visible row's confidence is at least hide |
| SeedSafety.VisibleRowsAreConfident | correlation/engine/state.py:250-267 | so it is for every row of the table after every run of passes |
| SeedSafety.VisibleRowsReachedShow | correlation/engine/state.py:250-267 | every visible row of the table was at show or above after some pass of the run |
| EdgeMemory.PriorAboveAlphaBreaksFloor | correlation/engine/state.py:322-351 | whatever the decay, a prior above what two confirmations reach ends above the confidence within two passes |
| EdgeTable.PassIsStepOnEveryRow | correlation/engine/state.py:255-267 | a pass over the table does to each row exactly the row step |
| EdgeTable.PassKeepsTable | correlation/engine/state.py:263-267 | a pass keeps every row well-formed, drops none, lowers no floor, hides no floored edge |
| EdgeTable.RunIsRunOnEveryRow | correlation/engine/state.py:250-267 | hence every law of one row's run holds in the table |
| ObservedRows.SeenEdgeIsFiled | correlation/engine/state.py:328-376 | an edge of a pass is filed from the workload of its source to that of its target, with strength, lag and evidence of the last such edge and one hit for each |
| ObservedRows.AbsentPairIsUntouched | correlation/engine/state.py:378-386 | a pair that no edge of the pass runs over is untouched while one of its workloads has no pod |
| ObservedRows.UnseenPairDecays | correlation/engine/state.py:298-398 | while both have one, its row decays to its floor; a shared disk lifts the floor to the prior and opens a row in name order |
| EdgeTable.FloorsOnlyRise | correlation/engine/state.py:322-351 | whatever the parameters, a pass drops no row and lowers no floor |
| CaseLibrary.SimProperties | correlation/engine/state.py:587-600 | similarity is in [0, 1], symmetric, and 1 exactly for the same shape |
| CaseLibrary.PartsWeigh | correlation/engine/state.py:598-600 | two incidents of one kind with nothing in common in their victims, or in their motifs, and otherwise alike have similarity 0.6; if only the roots differ it is 0.8 |
| CaseLibrary.OtherKindIsUnlike | correlation/engine/state.py:593-594 | incidents of other signals or witnesses have similarity 0 |
| CaseLibrary.StarSim | correlation/engine/state.py:598-600 | two incidents of one writer that stalls victims A and B directly have similarity 0.2 and 0.8 times the common part of all their victims |
| CaseLibrary.StarRegister | correlation/engine/state.py:544-565 | at the default thresholds the second recurs exactly if that overlap is at least 13/16 and opens a new family exactly if it is below 1/2 |
| CaseLibrary.NearestIsNearest | correlation/engine/state.py:538-542 | the scan finds the first case of greatest similarity |
| CaseLibrary.RegisterMeaning | correlation/engine/state.py:544-565 | recurrence, variant or novel, exactly by the greatest similarity against the two thresholds |
| CaseLibrary.InsertNeverIgnores | correlation/engine/state.py:566-576 | insert-or-ignore always inserts |
| CaseLibrary.PromoteKeepsSeparated | correlation/engine/state.py:534-576 | distinct cases stay below tau_merge, founders below tau_family, every variant related to an earlier case of its family |
| CaseLibrary.CaseLinksToFounder | correlation/engine/state.py:560-565 | every case links to its founder through its own family by steps of at least tau_family |
| CaseLibrary.PromoteKeepsAccounted | correlation/engine/state.py:544-583 | occurrences and lead stay those of the case's observations |
| CaseLibrary.EveryRunIsSeparated | correlation/engine/state.py:478-585 | separation and accounting hold after every sequence of incidents |
| CaseLibrary.PrototypesNeverMove | correlation/engine/state.py:553-559 | a stored prototype is never rewritten, over any run |
| CaseLibrary.OccurrencesAddUp | correlation/engine/state.py:547-583 | occurrences over all cases add up to the incidents |
| CaseLibrary.RepeatRecurs | correlation/engine/state.py:538-565 | the same incident again is a recurrence of the case it was filed under |
| CaseLibrary.KnownLeadsAverage | correlation/engine/state.py:548-552 | with every lead known the stored lead is their arithmetic mean |
| CaseLibrary.MeanSurvivesIff | correlation/engine/state.py:548-552 | the next known lead keeps the mean exactly when none was unknown or it equals the mean |
| CaseLeads.RootHasVictim | correlation/engine/pipeline.py:202-205 | a pass that names a root predicts a victim |
| CaseLeads.PassLeadIsKnown | correlation/engine/state.py:613-618 | every incident of a pass has a known lead |
| CaseLeads.StoredLeadIsMean | correlation/engine/state.py:544-583 | over every run of passes each stored lead is exactly the mean of the leads of its case's observations |
| CaseLeads.HandmadeLeadIsSkewed | correlation/engine/state.py:544-618 | three graphs made by hand, with leads 10, unknown and 40, become one case with a stored lead of 20 instead of 25 |
| Promotion.PromotedIsSourceRooted | correlation/engine/state.py:479-518 | a promoted root owns a write-evidenced edge of the motif and is not its own victim |
| Promotion.PromotedIff | correlation/engine/state.py:478-531 | a graph is promoted exactly when the workload of its first verdict owns a write-evidenced edge and hits another workload; root, victims, arrows and signal of the case |
| Promotion.WitnessIsCommonest | correlation/engine/state.py:602-611 | the witness of a case is the relation most of the evidence names, the first by name among equals; none if no relation is named |
| Promotion.LeadIsMeanDelay | correlation/engine/state.py:613-618 | the lead is the mean predicted delay, else the mean positive lag, else unknown |
| Promotion.CascadeIsNotPromoted | correlation/engine/state.py:484-495 | a verdict without a source edge mints no case |
| Promotion.RestartKeepsIncident | correlation/engine/state.py:483-531 | restarted pods give the same incident |
| Baselines.StormIsNotLearned | correlation/engine/state.py:643-645 | a mature row is unchanged exactly when the 90th percentile exceeds its limit |
| Baselines.StormsLeaveNoTrace | correlation/engine/state.py:643-645 | a storm of any length leaves the row where it was |
| Baselines.AcceptedRaiseIsBounded | correlation/engine/state.py:643-650 | one pass raises the median by at most base_alpha times the allowed deviation |
| Baselines.QuietPassesConverge | correlation/engine/state.py:646-650 | under a quiet level and spread the distances of median and deviation to them shrink by 1 - base_alpha every pass |
| Baselines.SteadyWorkload | correlation/engine/state.py:631-650 | from nothing, passes of one level and spread give exactly that baseline, with as many updates |
| Baselines.LimitWidens | correlation/engine/state.py:643-644 | the limit lies dev_k deviations above the median, widened by what is learned of the deviation above its floor |
| Baselines.ThresholdMeans | correlation/engine/state.py:653-662 | a workload has a threshold exactly when its baseline has matured, and then it is that limit |
| Baselines.SinglePodRow | correlation/engine/state.py:626-650 | with one pod per workload the pass does to its row what that pod's vector does |
| Baselines.RowUnchangedIff | correlation/engine/state.py:626-650 | a pass leaves a mature row alone exactly when every long enough vector of the workload storms against it |
| Baselines.OtherWorkloadsUntouched | correlation/engine/state.py:626-650 | a workload without a pod keeps its row |
| Baselines.RestartKeepsBaselines | correlation/engine/state.py:626-650 | only workloads and values matter, not pod names |
| GraphMemory.ObserveKeepsTables | correlation/engine/state.py:250-296 | observe keeps edge rows well-formed and the library separated and accounted |
| GraphMemory.EveryRunKeepsTables | correlation/engine/state.py:250-296 | so does every run from empty tables |
| GraphMemory.RestartKeepsStep | correlation/engine/state.py:250-296 | a pass over restarted pods leaves identical tables |
| GraphMemory.RestartKeepsRun | correlation/engine/state.py:250-296 | so does a whole run |
| Renaming.GraphOfRenamed | correlation/engine/ranking.py:17-21 | renaming the pods of the edges renames the nodes and arcs and keeps their order |
| Renaming.RankingRenamed | correlation/engine/ranking.py:39-70 | the ranking of a renamed graph is the ranking, renamed: same order, same scores, ties included |
| Renaming.BlastRenamed | correlation/engine/ranking.py:73-90 | a blast radius of a graph, renamed hit by hit, is one of the renamed graph |
| Restart.OneMoreRestart | correlation/engine/state.py:32-35 | after any restarts one more pod can take any other name of its workload |
| Restart.RestartedIsSame | correlation/engine/state.py:250-296 | a pass over restarted pods is the same pass once pods are replaced by workloads |
| Restart.RenderingRenamed | correlation/engine/state.py:400-476 | over the same tables a renamed report is rendered as the report was, renamed |
| Restart.RestartsOnlyRename | correlation/engine/state.py:250-476 | restart any pods between any two passes of a run: the tables are identical and what is rendered differs in the pod names only |
| GraphMemory.HeldEdgesNameRunningPods | correlation/engine/state.py:435-438 | a held edge names two running pods of its row's workloads |
| ObservedRows.HeldIff | correlation/engine/state.py:420-457 | a held edge renders, between the last pods of its workloads, a visible or floored row that no other such row of the pair exceeds and whose pair is not live; every such pair with both workloads running is held |
| ObservedRows.LiveEdgesCarryTheirRow | correlation/engine/state.py:405-418 | the edges of the pass come first, in order, each with the row of its own direction |
| GraphMemory.FlooredPairIsShown | correlation/engine/state.py:420-457 | a row with a floor is in view, live or held, whenever both its workloads run |
| GraphMemory.LearnedPairIsAlwaysShown | correlation/engine/state.py:250-476 | so a pair that once had a floor is in view after every further run that ends with both workloads running |
| GraphMemory.BootstrapShowsNothing | correlation/engine/state.py:283-296 | before any pod is known nothing is shown, whatever is stored |
| MemoryService.Memory.constructor | correlation/engine/state.py:59-73 | a new memory has empty tables |
| MemoryService.Memory.SeedStructural | correlation/engine/state.py:298-326 | seeds or lifts exactly the witnessed pairs of running workloads |
| MemoryService.Memory.ConfirmEdge | correlation/engine/state.py:328-376 | replaces the row of the edge's workload pair by the confirmed one |
| MemoryService.Memory.DecayAbsentEdges | correlation/engine/state.py:378-398 | decays exactly the unseen rows whose workloads both run |
| MemoryService.Memory.PromoteCase | correlation/engine/state.py:478-585 | files the incident of the report, if there is one, and records the observation |
| MemoryService.Memory.UpdateBaselines | correlation/engine/state.py:620-651 | learns every long enough vector that does not storm |
| MemoryService.Memory.StrongestRows | correlation/engine/state.py:420-431 | of every pair that is not live, the eligible row of greatest confidence |
| MemoryService.Memory.HoldEdges | correlation/engine/state.py:432-455 | one held edge per such pair with both workloads running, from that row |
| MemoryService.Memory.Render | correlation/engine/state.py:400-476 | live edges as a prefix, then the held ones; with findings the verdict is recomputed over both |
| MemoryService.Memory.BootstrapGraph | correlation/engine/state.py:283-296 | the start-up graph is empty |
| MemoryService.Memory.Observe | correlation/engine/state.py:250-281 | the whole new state of the tables and the rendering of it |
| Merge.MergeGraphs | correlation/engine/merge.py:20-80 | union, guarded verdict, owner signal, case fields, summed statistics and counts |
| Merge.UnionIsExact | correlation/engine/merge.py:26-30 | an edge is served exactly when its signal has it; the counts add up |
| Merge.NoSymptomNoRoot | correlation/engine/merge.py:32-48 | without a finding on the graph there is no root, however many edges are held |
| Merge.EveryRootExplainsFinding | correlation/engine/merge.py:37-48 | every ranked pod explains a finding that sits on the graph |
| Merge.RootHasOwner | correlation/engine/merge.py:57-69 | a root always has an owner, the signal of the first edge out of it, which has that edge; label and case are those of the owner |
| Merge.IdleIsLabelled | correlation/engine/merge.py:58-69 | without a root the label is the primary signal, else the first by name, and no case is shown |
| Merge.StatsAddUp | correlation/engine/merge.py:50-55 | each of the six statistics is the sum over the signals that report it |
| Merge.CountsMean | correlation/engine/merge.py:50-72 | the most pods of any signal, the pods with a finding, all edges, and the signals in order |
| Merge.VerdictOfUnion | correlation/engine/merge.py:37-48 | the verdict is the first three of all pods that explain a finding on the union, in order |
| CausalGraph.OnsetIsLast | correlation/engine/merge.py:45 | the onset of a pod is that of its last finding |
| ImpactOrder.JoinWalks | correlation/engine/ranking.py:24-36 | two walks that meet make one, which carries the product of what they carry |
| ImpactOrder.KeepsImpactsIff | correlation/engine/ranking.py:24-36 | one graph keeps every impact of another exactly when each surviving hop of that one is reached, directly or not, as strongly |
| ImpactOrder.ImpactGrows | correlation/engine/ranking.py:24-36 | over more and stronger arcs no impact is lost |
| ServedGraph.CoversIff | correlation/engine/merge.py:26-38 | the union covers a signal's graph exactly when no later duplicate of its edges is weaker |
| ServedGraph.MergingKeepsImpactIff | correlation/engine/merge.py:26-46 | everything a signal's graph explains is explained at least as well by the union exactly when each of its surviving hops is |
| ServedGraph.MergingKeepsImpact | correlation/engine/merge.py:26-46 | in particular when no later duplicate of its edges is weaker |
| ServedGraph.LaterDuplicateDecides | correlation/engine/merge.py:26-46 | of two signals' edges for one pair the later alone decides whether the finding has a root |
| ServedGraph.SeededPairHidesRoot | correlation/engine/state.py:313-321 | a pair that a later signal has only just seeded and holds removes the root an earlier signal found over it |
| ServedGraph.LaterDuplicateDemotesCause | correlation/engine/merge.py:26-48 | on a chain, the later signal's edge alone decides who heads the merged verdict: the cause exactly when that edge weighs at least 5/7 and the symptom survives it, otherwise the victim |
| ServedGraph.RenderingBlamesBackbone | correlation/engine/state.py:469-475 | with findings off the graph rendering names a root exactly when some pod has no cause or reaches anything |
| ServedGraph.BackboneIsBlamed | correlation/engine/state.py:469-475 | with one freshly seeded pair and a finding elsewhere, rendering names the pair's first pod the only root |
| ServedGraph.MergingDoesNot | correlation/engine/merge.py:39-48 | merging that one signal names none |
| Resampling.PointsAreInTime | correlation/service.py:126 | the points of a series are its samples with a time, in time order |
| Resampling.PointsAreSamples | correlation/service.py:126 | no sample with a time is lost or doubled, and of several at one time the greatest comes last |
| Resampling.Resample | correlation/service.py:138-143 | the two-pointer loop computes the simple rule for every column |
| Resampling.ToVectors | correlation/service.py:133-146 | keeps exactly the fresh series that cover enough of the grid, gaps filled with 0 |
| Resampling.Collect | correlation/service.py:120-129 | gathers the wanted series and the newest sample time |
| Resampling.SeriesAreCollected | correlation/service.py:122-129 | every gathered series is in time order, long enough and ends by the newest sample |
| Resampling.SeriesIff | correlation/service.py:120-129 | a series is filed under the pod and the signal of its key, from the last entry that names both and has at least twelve points |
| Resampling.LatestIsNewest | correlation/service.py:129 | the end of the grid is the newest sample of any filed series |
| Resampling.VectorIff | correlation/service.py:133-146 | a pod has a vector exactly when its newest sample is at most two steps old and it shows in at least twelve columns, 0 in the others |
| Resampling.BuildInputs | correlation/service.py:108-150 | all signals on one grid |
| Resampling.HeldMeans | correlation/service.py:140-141 | the held sample is the last one not after the bound, or the first |
| Resampling.ColumnIff | correlation/service.py:139-143 | a column has data exactly when a sample serves it, and shows the last that does |
| Resampling.ColumnsAreAligned | correlation/service.py:131-143 | column k of two series shows samples within two steps of each other |
| Resampling.LastColumn | correlation/service.py:136-143 | the last column is the newest sample, or a gap once the pod was silent for more than a step |
| Resampling.RegularSeriesIsShifted | correlation/service.py:139-143 | at the grid's cadence no sample is lost or used twice |
| Resampling.VectorsHaveOneLength | correlation/service.py:117-146 | every vector has 180 columns |
| Service.Round | correlation/service.py:194-200 | thresholds from memory, a pass, then observe: the whole new state, well-formed if it was, rendered and ready to be merged; a pass that raises changes nothing |
| Service.ReportIsValid | correlation/service.py:197-200 | a pass's report always meets what observe needs |
| Service.ReportedPodDeviates | correlation/engine/pipeline.py:79-88 | a reported pod has a mature row whose limit its judged tail exceeds |
| Service.ReportedIff | correlation/engine/pipeline.py:74-89 | a round reports exactly the pods with a strong onset whose workload has a threshold that the 90th percentile of the recent tail exceeds |
| Service.UngatedIff | correlation/engine/pipeline.py:74-89 | without thresholds every pod with a strong onset is reported |
| Service.RoundSeedsBackbone | correlation/engine/state.py:298-326 | after a round every two running workloads that share a disk have a row with a floor at the prior or above |
| Service.ReportedIsLearnedIff | correlation/service.py:196-200 | the row of a reported pod's workload is learned that round exactly when some vector of the workload is, as a whole, within the limit |
| Service.ReportedIsNotLearned | correlation/engine/pipeline.py:86-88 | judged on their whole vectors, pods that are all reported never are |
| Service.ShortStormIsReportedAndLearned | correlation/service.py:194-200 | in every round with a recent tail of 24 and the default parameters, a pod at rest that is disturbed for three samples is reported and learned |
| Service.QuietRoundOnlyDecays | correlation/service.py:197-200 | a round without findings confirms no edge and files no case |
| Gini.GiniIsPairwise | api/main.py:220-228 | the one-pass formula equals the pairwise definition |
| Gini.GiniIgnoresOrder | api/main.py:222 | reordering does not change the index |
| Gini.GiniIgnoresUnits | api/main.py:227-228 | scaling does not change the index |
| Gini.GiniRange | api/main.py:228 | it lies in [0, (n - 1)/n], the upper end exactly when one pod bears everything |
| Gini.GiniZeroIsFair | api/main.py:225-228 | it is 0 exactly when all shares are equal |
| Gini.NothingIsFair | api/main.py:225-226 | it is 0 where there is nothing to share |
| Gini.NegativesAreDropped | api/main.py:222 | a negative reading counts for nothing |
| Statistics.QuantileMonotone | correlation/engine/state.py:631-644 | a higher percentile is never lower, so the median is at most the 90th |
| Statistics.MedianIsTheMiddle | correlation/engine/state.py:631-632 | the median is the middle value, or half way between the two in the middle |
| Statistics.MadOfThree | correlation/engine/state.py:633 | of three values the deviation is the distance from the middle one to the nearer of the others |
| Common.LastNEndsTheList | correlation/engine/pipeline.py:86 | the recent tail ends the vector and is as long as asked for |

## Left out

- ForwardImpact: exactness and termination are stated for weights of at most 1, which every correlation is; the worklist need not terminate on heavier cycles.
- RankRootCauses: scores are not rounded to three decimals.
- BlastRadius: hits are sorted by the exact impact, not by the rounded one, so ties made by rounding may come in another order.
- RunPass: series of different lengths are correlated like any other. The numerical library the program calls may refuse a writer and a victim of different lengths, and raises for an empty vector next to a longer one (the slice `[-0:]` keeps the longer one whole). The service gives all series 180 columns.
- ForecastMeans: needs two samples and a tail of at least two, because the line fit of the numerical library is not defined on fewer.
- IncipientFindings: needs the same of every vector with data; the service gives all vectors 180 columns.
- ServedWarnings: as IncipientFindings.
- WarningIsEarned: as ForecastMeans.
- HoldEdges: the order of held edges is not fixed, because the row order of the database is not.
- RestartsOnlyRename: the report of a pass is taken as given, with the new names in it; a pass itself looks at pods in the order of their names, so that equally strong directions may come out differently (`LagCorrelation.SwapFlipsDirectionIff`).
- PromoteCase: the lag structure, the stored graph and the time stamps of a case are not kept.
- BuildInputs: keys arrive already split at slashes and times already parsed; events and the breach list are not part of it.
- Floating-point rounding, NaN and overflow; percentiles, medians and line fits are exact.
- The shape labels of `classify` and the capacity map: they decorate findings and decide nothing.
- The numerics of correlation, skewness and rank correlation (numpy and scipy are not part of this model): any function into [-1, 1] takes their place.
- The construction of the witness from pod names in the service, and the breach list from events: inputs here.
- The database itself, schema, migrations, model versions, mistakes, graph snapshots and table counts.
- HTTP, fetching, threads, environment parsing and JSON.
- The remaining API (narrative, right-sizing, network map parsing), the aggregator, the dashboard and the workloads.

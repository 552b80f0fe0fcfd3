# openCenter CLI: models and proofs

This project models, in Dafny 4.11, the parts of the openCenter command line tool whose
correctness is hardest to see from the code, and proves what they promise. Check it with
`dafny verify dfyconfig.toml`.

- **Assignment engine** (`Assignment`, `AssignmentPaths`, `AssignmentTexts`, `AssignmentLaws`,
  `AssignmentOrder`, `AssignmentPairs`, `AssignmentHeap`, `Numerals`; `cmd/config_assignment.go`). Go types and values are trees. `Next` is one hop of a dotted path
  through a struct, pointer, interface, slice, array or map; `Resolve` is the place a path names,
  so that `"1"`, `"01"` and `"+1"`, or the Go, yaml and json names of a field, are one place; `Set` is
  what an assignment makes of a value. `AssignmentPaths` writes down from the shape of a value which texts
  spell which place, and `AssignmentTexts` which texts mean which value. `AssignmentHeap` runs the same code on storage cells (`Box`):
  it clones, walks and writes in place, then commits, and is proved against `Apply` with separation
  of footprints.
- **Multi-cluster sync** (`SecretsSync`, `SecretsLaws`, `SecretsReplies`; `cmd/secrets_sync.go`). An interleaving of atomic steps of
  one spawner and a goroutine per cluster, with an explicit mutex, semaphore, wait group and stop flag.
- **Infrastructure drift** (`StringOrder`, `KeyedSums`, `Drift`, `DriftDetect`, `DriftLaws`,
  `DriftRules`, `DriftItems`, `DriftSummaries`, `DesiredState`, `DesiredNodes`; `internal/cloud/compare.go`, `cmd/cluster_drift.go`). What is reported is a multiset
  of items; `DriftItems` says of every item how often it is in it, by the difference it tells of. The methods loop over maps in any order and append to one report object. Severities are
  ordered Info < Warning < Critical.
- **Custom overlay migration** (`Kustomization`, `CustomMigration`, `CustomApply`, `CustomRun`,
  `CustomChoice`, `CustomListing`, `CustomLaws`; `cmd/cluster_migrate_layout.go`). The overlay is a map from paths (lists of names) to
  files, directories and symbolic links; the walk is any enumeration of it. The disk is an object
  that MkdirAll, Rename and WriteFile update.
- **Smaller components**: the line tagger (`TagWip`, `TagForms`, `TagWords`), the nested configuration writes
  (`NestedConfig`), the state-tree inventory (`Inventory`, `InventoryOrder`,
  `InventoryNodes`, `InventoryLaws`, `InventoryKeys`), the Terraform scanner and
  parser (`TfScan`, `TfPieces`, `TfParse`, `TfScalars`, `TfPrint`, `TfOneLine`), and front-matter quoting with the directory swap (`DocsGenerate`).

`Text` holds the string routines they share, written out on `seq<char>`.

Findings where the code does less than one may expect, each stated as a lemma:

- Looking for a field through an embedded nil pointer gives that pointer storage. So two assignments
  to different places need not commute (`AssignmentPairs.EmbeddedPointerOrder`), and the earlier of two
  to one place can leave a trace (`AssignmentPairs.SpellingLeavesTrace`); `AssignmentPairs.Commute` and
  `AssignmentPairs.LastWriteWins` say exactly when. No configuration struct of the repository embeds a
  pointer.
- The digits of 0 and 1, assigned to an empty interface, become truth values and not integers; all other
  integers of 64 bits stay what they are (`AssignmentTexts.InterfaceInteger`).
- `runMultiClusterSync` partitions its clusters into results, failures and skipped exactly when their
  names are distinct (`SecretsLaws.PartitionedIffDistinct`), and never ends with concurrency 0 and at
  least one cluster (`SecretsLaws.ZeroConcurrencyHangs`).
- `CalculateSummary` does not reset its class counters; counting onto old ones, classes and total agree
  exactly if the old ones sum to zero (`DriftSummaries.CountersMustStartAtZero`).
- `equalStringSets` takes the empty list and the list holding one empty string for equal
  (`StringOrder.EqualStringSetsDecides`).
- `yamlQuote` leaves control characters other than tab and the line breaks as they are, which section
  5.1 of YAML 1.2.2 does not allow in a scalar; the quoted text reads back exactly for the other
  values (`DocsGenerate.QuoteReadsBack`).
- A rule's normalized text joins its fields with a bar and nothing keeps a bar out of them. It tells the
  rule apart exactly if no trimmed field holds a bar without white space beside it
  (`DriftRules.NormalTellsApartIff`); otherwise security groups that lack a desired rule can compare as
  matching (`DriftRules.UnsealedRuleMissed`).
- `rewriteLegacyClusterConfig` replaces a mapping that has a key other than a string by an empty one:
  `secrets: {1: x, other: y}` loses `other` (`NestedConfig.SecretsAreLost`).
  `NestedConfig.KeptIffNothingStrays` says exactly when everything apart from the written paths stays.
- The documentation of `parse_assignments` shows `key = { a = 1, b = 2 }` as an object on one line. Commas
  are never split: the object has the one key `a`, with `'1, b = 2'` for its value
  (`TfOneLine.TwoGiveOne`). Entries on one line come out right exactly if there is at most one
  (`TfOneLine.YieldsEntriesIff`).
- Braces in a Terraform comment count where `count_braces_outside_strings` is given a raw line
  (`TfScan.RawCountAgrees`). A string in single quotes with an undoubled quote inside, or a quote alone,
  passes `to_yaml_scalar` (`TfParse.LoneQuote`); `to_yaml_scalar` too leaves
  control characters other than tab as they are; the quoted text reads back exactly for the other values
  (`TfParse.QuotedReadsBack`).
- The test for a trailing space in `tag_feature_file` follows a strip and never succeeds
  (`TagWip.MarkedHasSpace`). It takes a longer tag such as `@wip-later` for the tag and leaves the
  scenario below without it (`TagWords.LongerTagMisleads`); `TagWords.TagHeldIff` says exactly when all
  failing scenarios get the tag as a word.
- Node keys joined with NUL collide for nodes that hold NUL, and only for those
  (`InventoryKeys.KeyTellsApartIff`); a state then loses a node (`InventoryKeys.StateLosesNode`).

## Model

| member | source | states |
|---|---|---|
| Assignment.FirstDirect | cmd/config_assignment.go:254-270 | the first field answering to a Go, yaml or json name: it answers, none before it does |
| Assignment.FirstEmbedded | cmd/config_assignment.go:271-292 | the first embedded struct or pointer through which the name is found |
| Assignment.NextDescends | cmd/config_assignment.go:161-251 | every hop that is not the last has a value to go on from and makes the walk shorter, so setFieldPath ends on every value |
| Numerals.ParseIntIff | cmd/config_assignment.go:198-201 | strconv reads an integer exactly from its decimal digits with any zeros and a sign in front, in the range of the width |
| Numerals.ParseUintIff | cmd/config_assignment.go:310-315 | the same without a sign |
| AssignmentPaths.TagNameIff | cmd/config_assignment.go:295-297 | the name in a tag is what stands before its first comma |
| AssignmentPaths.HasIff | cmd/config_assignment.go:271-292 | a name is found below a type exactly if a chain of embedded fields leads to a field that answers to it |
| AssignmentPaths.ResolveIff | cmd/config_assignment.go:161-293 | a path leads to a location exactly if it spells it: elements by their numbers, fields by the first that answers or else holds the name, entries by their keys; in every type and value |
| AssignmentPaths.AssignsThere | cmd/config_assignment.go:161-251 | where the path spells a location by full names, the converted text is put there and all else stays; it fails exactly if the text does not convert |
| AssignmentPaths.PathLeadsThere | cmd/config_assignment.go:161-251 | every location of exported, unhidden fields, elements and entries has a path of decimal numbers, Go names and keys, which leads there and changes it alone |
| AssignmentPaths.ElementAssigned | cmd/config_assignment.go:194-208 | the decimal number i names the i-th element of a list |
| AssignmentPaths.DottedPath | cmd/config_assignment.go:139-159 | the same through the dotted text of a whole assignment |
| AssignmentPaths.ElementRefused | cmd/config_assignment.go:198-204 | a list refuses a part that is no number, and a number that is none of its own |
| AssignmentPaths.EntryRefused | cmd/config_assignment.go:218-242 | a map refuses a part that spells no key, and one that should lead on and is not there |
| AssignmentPaths.FieldRefused | cmd/config_assignment.go:209-213 | a struct refuses exactly a name that no field answers to, nor any below an embedded one |
| AssignmentPaths.TopRefused | cmd/config_assignment.go:139-158 | a target must be a pointer or a map and not nil, a path not blank |
| AssignmentTexts.IntegerText | cmd/config_assignment.go:360-365 | an integer field takes exactly the numerals of the integers of its width |
| AssignmentTexts.BoolText | cmd/config_assignment.go:378-383 | a truth value takes exactly the words, their first letters and digits |
| AssignmentTexts.ListText | cmd/config_assignment.go:397-410 | items written with commas become the list of them, trimmed |
| AssignmentTexts.PointerText | cmd/config_assignment.go:342-354 | null is the nil pointer, other text what is pointed to |
| AssignmentTexts.InterfaceText | cmd/config_assignment.go:427-444 | text for an empty interface that is no JSON is a truth value if it means one, else an integer if it is a numeral of 64 bits, else itself |
| AssignmentTexts.InterfaceInteger | cmd/config_assignment.go:436-443 | integers put there as digits come back, but for 0 and 1 |
| AssignmentLaws.NextAgain | cmd/config_assignment.go:161-293 | after writing where a hop leads, the same hop leads there again and finds what was written |
| AssignmentLaws.ReadBack | cmd/config_assignment.go:161-251 | an assignment succeeds exactly if its path resolves and its text converts; the path then resolves to the same place, which holds the converted value |
| AssignmentLaws.Frame | cmd/config_assignment.go:161-293 | every place that is there and diverges from the one assigned keeps its value, up to storage given to nil embedded pointers by the search; without embedded pointers, exactly |
| AssignmentPairs.FrameExact | cmd/config_assignment.go:161-293 | a diverging place keeps its value exactly, except that nil embedded pointers the search goes through get storage; one that is not there, with nothing nil on the way, does not come into being |
| AssignmentOrder.SetIsWrite | cmd/config_assignment.go:161-251 | an assignment is the search for its path and the converted value written where it leads |
| AssignmentOrder.ResolveMissed | cmd/config_assignment.go:254-293 | a search in vain changes nothing about where a path leads |
| AssignmentOrder.ResolveAfter | cmd/config_assignment.go:161-293 | writing along one path does not change where a diverging one leads, in every type |
| AssignmentOrder.MissWrite | cmd/config_assignment.go:254-293 | a write and then a search in vain is the search, then a write of what it leaves of the value |
| AssignmentOrder.FullIff | cmd/config_assignment.go:271-292 | a search in vain leaves a value alone exactly if no embedded pointer in it is nil |
| AssignmentOrder.WritesMeet | cmd/config_assignment.go:161-293 | two writes to diverging places meet in either order when each second value is written as the first search leaves it |
| AssignmentOrder.WritesCommute | cmd/config_assignment.go:161-293 | so they commute exactly if neither value has a nil embedded pointer the other search goes through |
| AssignmentPairs.Commute | cmd/config_assignment.go:22-37 | assignments to diverging places succeed or fail together in both orders, for every type; succeeding, they give one value if and only if they are independent |
| AssignmentPairs.TameIsIndependent | cmd/config_assignment.go:271-292 | where no struct embeds a pointer, they always are |
| AssignmentPairs.EmbeddedPointerOrder | cmd/config_assignment.go:271-292 | with embedded pointers two such assignments can give different values in the two orders |
| AssignmentPairs.LastWriteWins | cmd/config_assignment.go:22-37 | of two assignments to one place, however spelled, the earlier leaves no trace if and only if the later fails or its search goes through every embedded field the earlier one filled |
| AssignmentPairs.RewriteWins | cmd/config_assignment.go:22-37 | along one path it never leaves a trace, for every type |
| AssignmentPairs.TameIsRetraced | cmd/config_assignment.go:271-292 | nor, however spelled, where no struct embeds a pointer |
| AssignmentPairs.SpellingLeavesTrace | cmd/config_assignment.go:271-292 | a field found through the search and by its full name: the first write leaves a trace |
| AssignmentLaws.ApplyConcat | cmd/config_assignment.go:22-37 | applying a list a ++ b is applying a, then b if a succeeded |
| AssignmentPairs.ApplyExchange | cmd/config_assignment.go:22-37 | neighbours that name diverging places can be exchanged, whatever follows them, if and only if they are independent |
| AssignmentHeap.Clone | cmd/config_assignment.go:51-107 | a clone has the same value and shares no storage cell with the original |
| AssignmentHeap.Build | cmd/config_assignment.go:341-425 | new storage, all of it fresh, for a converted or zero value |
| AssignmentHeap.Touch | cmd/config_assignment.go:271-292 | the failed searches through embedded fields leave exactly what Miss says |
| AssignmentHeap.SetFieldPath | cmd/config_assignment.go:161-251 | writing in place makes the storage hold what Set says, or fails with Set's error, touching only the value's own cells |
| AssignmentHeap.SetIface | cmd/config_assignment.go:166-183 | an interface's value is copied out, assigned and set back |
| AssignmentHeap.SetField | cmd/config_assignment.go:139-159 | the target must be a pointer or a map, not nil, and the path not blank; otherwise as SetFieldPath |
| AssignmentHeap.SetFields | cmd/config_assignment.go:31-35 | the loop makes the candidate hold the result of all assignments in order, or stops at the first failure |
| AssignmentHeap.FoldIsApply | cmd/config_assignment.go:31-35 | the fold the loop is proved against is Apply |
| AssignmentHeap.Commit | cmd/config_assignment.go:109-136 | the target's cell takes over the candidate's content; a map loses every old key and gains every new one |
| AssignmentHeap.ApplyConfigAssignments | cmd/config_assignment.go:22-37 | all or nothing: on failure the first error and no old cell changed; on success the target holds the result of all assignments in order, in storage new except for its own cell |
| SecretsSync.RunKeepsInv | cmd/secrets_sync.go:213-284 | the invariant: spawner position, mutex owner, semaphore and wait group counts, stop flag against failures and slots |
| SecretsLaws.Bounded | cmd/secrets_sync.go:214-280 | never more syncs in flight than the concurrency; with stop-on-error never more failures than it |
| SecretsLaws.NothingPassesAfterStop | cmd/secrets_sync.go:226-247 | once set the flag stays set, and no goroutine passes the second gate any more |
| SecretsReplies.RecordedIsReply | cmd/secrets_sync.go:258-279 | whatever is recorded under a name is what SyncSecrets returned for a cluster of that name |
| SecretsReplies.ReplyIsRecorded | cmd/secrets_sync.go:258-279 | with distinct names, what it returned is recorded and stays |
| SecretsLaws.DistinctNamesArePartitioned | cmd/secrets_sync.go:261-284 | at Wait each cluster is in one of results, failures or skipped, and skipped ones exist only if stop-on-error saw a failure |
| SecretsLaws.PartitionedIffDistinct | cmd/secrets_sync.go:199-284 | every run ends in that partition if and only if the cluster names are distinct |
| SecretsLaws.NoDeadlock | cmd/secrets_sync.go:213-284 | with concurrency at least 1 every state before the end has a next step |
| SecretsLaws.RunsTerminate | cmd/secrets_sync.go:213-284 | every run has at most 12 n + 3 states, and one that cannot go on is past Wait |
| SecretsLaws.ZeroConcurrencyHangs | cmd/secrets_sync.go:214-238 | with concurrency 0 no run over a non-empty list ever finishes |
| StringOrder.SortStrings | internal/cloud/compare.go:768-772 | a sorted copy: the same values, in order |
| StringOrder.LeIff | internal/cloud/compare.go:768-772 | the order: a prefix first, else by the first character that differs |
| StringOrder.SortIsCanonical | internal/cloud/compare.go:768-772 | sorted copies are equal exactly for equal multisets |
| StringOrder.SplitJoin | internal/cloud/compare.go:764-766 | joining a non-empty list of separator-free strings is injective |
| StringOrder.EqualStringSetsDecides | internal/cloud/compare.go:764-772 | for NUL-free strings it decides multiset equality, the empty list and the list of one empty string being the only collision |
| DriftDetect.MapByKey | internal/cloud/compare.go:774-784 | the map of the keyed elements, the last of equal keys kept, blank keys dropped |
| DriftDetect.DetectServerDrift | internal/cloud/compare.go:64-176 | appends exactly the server items, whatever the order of map iteration |
| DriftDetect.DetectServerPair | internal/cloud/compare.go:84-163 | flavor, image, status, tag and network items of a pair |
| DriftDetect.DetectTags | internal/cloud/compare.go:128-145 | one item per desired tag with another value |
| DriftDetect.DetectNetworkDrift | internal/cloud/compare.go:178-233 | appends exactly the network and subnet items |
| DriftDetect.DetectSubnetDrift | internal/cloud/compare.go:235-288 | the same for the subnets of one network |
| DriftDetect.CompareSecurityRules | internal/cloud/compare.go:610-640 | missing rules, and unasked rules that are high-risk, in order |
| DriftDetect.DetectSecurityGroupDrift | internal/cloud/compare.go:290-355 | appends exactly the security group items |
| DriftDetect.DetectLoadBalancerDrift | internal/cloud/compare.go:357-452 | appends exactly the load balancer items |
| DriftDetect.DetectVolumeDrift | internal/cloud/compare.go:454-535 | appends exactly the volume items |
| DriftDetect.DetectFloatingIPDrift | internal/cloud/compare.go:537-608 | the count item and the items of the pairs in key order |
| DriftDetect.ReportSurplus | internal/cloud/compare.go:159-175 | one item for each actual element whose key no desired one has; the loop all five keyed detectors and the subnet one end with |
| DriftDetect.DetectPairs | internal/cloud/compare.go:560-607 | the loop over those pairs, up to the shorter list |
| Drift.InsertionSortSorts | internal/cloud/compare.go:555-558 | the sorting the floating-IP laws ask for exists: insertion sort by key |
| DriftDetect.CalculateSummary | internal/cloud/compare.go:37-62 | counts the items onto the old counters, with the highest severity and whether all are reconcilable |
| DriftDetect.CompareInfrastructureState | internal/cloud/compare.go:12-34 | a fresh report with exactly the items of all six kinds, counted from zero; a missing state counts as empty |
| DriftDetect.FilterBySeverity | cmd/cluster_drift.go:811-863 | the items of the class in order, counted again; an unknown class gives the report itself |
| DriftDetect.Recount | cmd/cluster_drift.go:827-860 | its own counting agrees with CalculateSummary from zero |
| DriftLaws.SilentIffMatches | internal/cloud/compare.go:12-34 | no item is reported exactly if the states match: same keys, and matching fields, blank ones ignored as coded |
| DriftLaws.ServerSilent | internal/cloud/compare.go:84-163 | the same for a pair of servers: the actual one must be ACTIVE or blank, and carry the desired tags |
| DriftLaws.SecurityGroupsSilent | internal/cloud/compare.go:290-355 | the same for all security groups: same keys, and under each desired rules present, no unasked high-risk rule |
| DriftItems.DriftsCount | internal/cloud/compare.go:12-34 | every item is in the report exactly as often as the states differ as it says |
| DriftItems.ServersCount | internal/cloud/compare.go:64-176 | items about servers: by field, the values of which side they carry, their severity and whether they are reconcilable; each once |
| DriftItems.RoleDecides | internal/cloud/compare.go:695-701 | a missing server is critical exactly if its role is control-plane or master, up to case |
| DriftItems.NetworksCount | internal/cloud/compare.go:178-288 | the same for networks and their subnets |
| DriftItems.GroupsCount | internal/cloud/compare.go:290-355 | the same for security groups; critical exactly if a missing or an unasked rule opens the API to anybody |
| DriftItems.OpensIff | internal/cloud/compare.go:660-693 | a rule is high-risk exactly if it lets anybody in on all ports, on 6443, or on a range with it |
| DriftItems.BalancersCount | internal/cloud/compare.go:357-452 | the same for load balancers |
| DriftItems.VolumesCount | internal/cloud/compare.go:454-535 | the same for volumes |
| DriftItems.FloatingCount | internal/cloud/compare.go:537-608 | the same for floating IPs, pair by pair in key order, and one item for different lengths |
| DriftItems.VolumesMatch | internal/cloud/compare.go:741-752 | volumes are matched by what they are attached to, else by name, else by identifier |
| DriftRules.NormalTellsApartIff | internal/cloud/compare.go:642-649 | a rule shares its text only with rules alike up to case and surrounding space, if and only if no trimmed field of it holds a bar without white space beside it |
| DriftRules.UnsealedCollides | internal/cloud/compare.go:642-649 | every other rule has an unlike one with the same text |
| DriftRules.RulesMatchIffSealed | internal/cloud/compare.go:610-640 | against every actual group, silence means alike rules for all desired ones and no unlike high-risk one, if and only if all desired rules are such |
| DriftRules.UnsealedRuleMissed | internal/cloud/compare.go:610-640 | for any other desired rule some actual group matches without a rule alike to it |
| DriftLaws.SelfComparison | internal/cloud/compare.go:64-640 | a state against itself: exactly one status item per keyed server whose status is given and not ACTIVE |
| DriftLaws.SelfSilent | internal/cloud/compare.go:118-127 | so it is silent exactly if no keyed server is inactive |
| DriftLaws.KeyedIsLast | internal/cloud/compare.go:774-784 | a key finds the last element that has it |
| DriftLaws.OrderDoesNotMatter | internal/cloud/compare.go:12-34 | reordering the lists of either state, or sorting by another algorithm, changes nothing when keys determine elements |
| DriftSummaries.SummaryOrderFree | internal/cloud/compare.go:37-62 | counters, severity and flag depend only on the multiset of items |
| DriftSummaries.SummaryAddsUp | internal/cloud/compare.go:37-62 | from zero the classes add up to the total and each is the size of its filter |
| DriftSummaries.CountersMustStartAtZero | internal/cloud/compare.go:37-62 | counting onto old counters they add up if and only if the old ones sum to zero |
| DriftSummaries.HighestIsMaximum | internal/cloud/compare.go:42-56 | the overall severity is an upper bound that is reached |
| DriftSummaries.ReconcilableWhenAllAre | internal/cloud/compare.go:40-61 | a report is reconcilable exactly if each item is |
| DriftSummaries.FiltersPartition | cmd/cluster_drift.go:811-863 | the three filters together hold every item once |
| DriftSummaries.FilterIsPure | cmd/cluster_drift.go:811-863 | a filtered report holds one class, and filtering again changes nothing |
| DriftSummaries.SeverityNamed | cmd/cluster_drift.go:813-822 | a filter knows exactly the names severities are printed by |
| DesiredState.BuildDesiredState | cmd/cluster_drift.go:495-740 | the counted loops build exactly the servers, volumes and parts of the configuration's groups |
| DesiredNodes.ServersIff | cmd/cluster_drift.go:514-640 | the desired servers are, of each pool, as many as it counts, with the name, flavor, image, networks and tags the configuration gives |
| DesiredNodes.VolumesIff | cmd/cluster_drift.go:537-640 | the desired volumes are the boot volumes of those nodes whose size is given, and on VMware their disks on the datastore |
| DesiredNodes.NetworksAre | cmd/cluster_drift.go:642-685 | the one network of the provider and its subnet, if any |
| DesiredNodes.GroupsAllow | cmd/cluster_drift.go:687-705 | one rule for port 6443 per address allowed, in order, for the control plane, none for workers |
| DesiredNodes.WaysIn | cmd/cluster_drift.go:707-720 | by which settings there is a load balancer or a floating IP for the API |
| DesiredState.NodeNameDetermines | cmd/cluster_drift.go:520-640 | a node name determines its group name and index |
| DesiredState.ServerKeysDistinct | cmd/cluster_drift.go:520-640 | server keys are distinct if and only if no two groups share a name |
| DesiredState.VolumeKeysDistinct | internal/cloud/compare.go:741-752 | volume keys are distinct when group names are |
| DesiredState.KeyedKeepsAll | internal/cloud/compare.go:774-784 | with distinct keys mapByKey keeps every element |
| DesiredState.ServerCount | cmd/cluster_drift.go:520-640 | as many servers as masters, workers and pool counts |
| DesiredState.BuiltKeysDistinct | cmd/cluster_drift.go:617-640 | built server keys are distinct if and only if pool names are distinct and none is master or worker; then volume keys are too, and mapByKey drops no server and no volume |
| DesiredState.BuiltMatchesItself | cmd/cluster_drift.go:495-740 | comparing the built state with itself reports nothing |
| Kustomization.SetValue | cmd/cluster_migrate_layout.go:583-591 | replaces the first value under a key, or appends the pair |
| Kustomization.PutThenFind | cmd/cluster_migrate_layout.go:574-591 | the value is found under its key and every other key as before |
| Kustomization.NameNamesItself | cmd/cluster_migrate_layout.go:544-549 | trimming and cleaning leave a plain file name alone |
| Kustomization.FreshIsMissing | cmd/cluster_migrate_layout.go:550-557 | added are exactly the resources without an entry, each once |
| Kustomization.ExtendedListsAll | cmd/cluster_migrate_layout.go:544-557 | old entries stay first in order, all resources are listed, a second merge adds nothing |
| Kustomization.ExtendedTwice | cmd/cluster_migrate_layout.go:544-557 | merging two lists in turn is merging their concatenation |
| Kustomization.MergeItems | cmd/cluster_migrate_layout.go:544-557 | the two loops compute that, and report whether anything was added |
| Kustomization.Prepare | cmd/cluster_migrate_layout.go:515-564 | refuses what is unreadable or no mapping with a resource list; otherwise new text, or no change |
| Kustomization.PreparedIsSettled | cmd/cluster_migrate_layout.go:515-564 | preparing again what was written reports no change |
| CustomMigration.ValidateParents | cmd/cluster_migrate_layout.go:453-468 | true exactly if no directory down to the given one is a link or unreadable |
| CustomMigration.Scan.Visit | cmd/cluster_migrate_layout.go:237-312 | the callback: one verdict per entry, in the order of the source's branches, noted in its list |
| CustomMigration.Scan.Place | cmd/cluster_migrate_layout.go:278-312 | the branches for a file of the user's own |
| CustomMigration.Scan.Walk | cmd/cluster_migrate_layout.go:237-316 | the lists and the plan after the walk; it fails exactly if some entry cannot be looked at |
| CustomRun.FirstComeMoves | cmd/cluster_migrate_layout.go:290-311 | a file moves exactly if it could alone and no earlier file wants its place; the scan fails over entries that fail alone |
| CustomChoice.MovesIff | cmd/cluster_migrate_layout.go:237-312 | a file moves exactly if it is owned, not custom, not in the manifest, at least three segments deep, no kustomization, its place is free, and no such file before it wants the same place |
| CustomChoice.PlanIff | cmd/cluster_migrate_layout.go:237-312 | the plan holds exactly the moves of these files to their places |
| CustomChoice.PassesIff | cmd/cluster_migrate_layout.go:304-306 | the scan fails exactly over a file with a place whose custom directory is a file, or a link to one |
| CustomChoice.ReportIff | cmd/cluster_migrate_layout.go:259-312 | each file is on the list it belongs on, once: custom, tracked if its hash agrees, modified if not, unknown, refused |
| CustomChoice.GeneratedStays | cmd/cluster_migrate_layout.go:267-276 | after a run every file of the manifest is where it was, as it was |
| CustomChoice.ChosenMoves | cmd/cluster_migrate_layout.go:340-382 | and every chosen file at its place with its contents |
| CustomRun.PlanIsGood | cmd/cluster_migrate_layout.go:278-311 | planned files are regular files, no kustomizations and not custom, going to distinct free places in custom directories that are no links; that none is in the manifest is CustomChoice.PlanIff |
| CustomApply.Disk.MkdirAll | cmd/cluster_migrate_layout.go:359-361 | makes the missing directories, fails exactly over a file in the way |
| CustomApply.Disk.Rename | cmd/cluster_migrate_layout.go:612-614 | moves the file, overwriting; fails exactly without a parent directory or onto a directory |
| CustomApply.Group | cmd/cluster_migrate_layout.go:326-330 | resources by kustomization, in plan order |
| CustomApply.PrepareAll | cmd/cluster_migrate_layout.go:331-339 | the changed kustomizations, whatever the order; fails exactly if one is refused |
| CustomApply.MoveStep | cmd/cluster_migrate_layout.go:358-366 | MkdirAll and a rename turn the disk after some moves into the disk after one more |
| CustomApply.MoveAll | cmd/cluster_migrate_layout.go:358-366 | no move fails, and the disk afterwards depends on the set of moves, not their order |
| CustomApply.WriteAll | cmd/cluster_migrate_layout.go:367-374 | no write fails, in any order, and nothing else changes |
| CustomRun.KustomizationStays | cmd/cluster_migrate_layout.go:326-339 | the kustomization beside a destination is neither moved nor moved onto |
| CustomRun.Migrate | cmd/cluster_migrate_layout.go:233-380 | fails exactly if the scan fails or a kustomization is refused; then, and in a dry run, the disk is unchanged; else it is the moved and rewritten one |
| CustomLaws.NoCollisions | cmd/cluster_migrate_layout.go:290-311 | destinations are distinct, new, custom, and apart from all sources, kustomizations and directories |
| CustomLaws.RelocationIsInjective | cmd/cluster_migrate_layout.go:358-366 | no two entries end up under one path |
| CustomLaws.Conserved | cmd/cluster_migrate_layout.go:358-374 | every entry is there under its new path with its contents, except rewritten kustomizations, which stay in place |
| CustomLaws.NothingElse | cmd/cluster_migrate_layout.go:358-374 | nothing else appears but custom directories and new kustomizations |
| CustomLaws.NothingMoves | cmd/cluster_migrate_layout.go:237-312 | no entry of the migrated disk would move or fail the scan |
| CustomLaws.SecondRunIsIdle | cmd/cluster_migrate_layout.go:233-316 | a second run, in any walk order, plans nothing and does not fail |
| CustomLaws.MigrateTwice | cmd/cluster_migrate_layout.go:233-380 | run twice, the second run moves nothing and leaves the disk alone |
| CustomLaws.StaysATree | cmd/cluster_migrate_layout.go:358-374 | every entry afterwards stands in a directory |
| CustomLaws.KustomizationsSettle | cmd/cluster_migrate_layout.go:326-339 | afterwards every kustomization lists the files moved beside it |
| CustomListing.MovedFileIsListed | cmd/cluster_migrate_layout.go:321-339 | the kustomization beside every moved file can be read and its resources name the file |
| CustomListing.RewrittenKeeps | cmd/cluster_migrate_layout.go:526-564 | a rewritten one keeps its other keys, and its old entries come first |
| CustomListing.RefusedIff | cmd/cluster_migrate_layout.go:525-543 | it is refused exactly if it cannot be read, is no mapping, or has something other than a list for resources |
| CustomListing.NewSays | cmd/cluster_migrate_layout.go:517-524 | a new one has the kustomize kind and version and lists the files in order |
| CustomLaws.ExactlyOneBucket | cmd/cluster_migrate_layout.go:250-311 | an owned regular file other than the manifest is listed once in one bucket or moves; others are not listed |
| CustomLaws.PlanIsListed | cmd/cluster_migrate_layout.go:309-310 | the move bucket is the plan |
| NestedConfig.Has | cmd/cluster_migrate_layout.go:1015-1025 | true exactly if the path leads to a value that is not null |
| NestedConfig.SetThenGet | cmd/cluster_migrate_layout.go:998-1013 | a nested write reads back |
| NestedConfig.SetElsewhere | cmd/cluster_migrate_layout.go:998-1025 | and leaves paths that part ways with it as the source itself finds them, even where scalars become mappings |
| NestedConfig.SetLooks | cmd/cluster_migrate_layout.go:998-1013 | for a reader, who looks into mappings with other than string keys too, it leaves such a path alone unless both go through one of those mappings; then the path is gone |
| NestedConfig.WritesArePrefixFree | cmd/cluster_migrate_layout.go:967-977 | the paths written part ways pairwise |
| NestedConfig.Rewrite | cmd/cluster_migrate_layout.go:967-977 | the sequence of writes; the test made halfway sees what the original had |
| NestedConfig.AllLooks | cmd/cluster_migrate_layout.go:967-977 | the same for the whole sequence of writes, by the mappings of the original |
| NestedConfig.RewriteReadsBack | cmd/cluster_migrate_layout.go:950-1013 | every path written reads back its value; every path apart from them reads as before, or is gone if it shares a mapping with other than string keys with a written one |
| NestedConfig.KeptIffNothingStrays | cmd/cluster_migrate_layout.go:950-1013 | every path apart from those written reads as before if and only if no such mapping above a written path holds anything, under string keys, that no written path leads to or through |
| NestedConfig.SecretsAreLost | cmd/cluster_migrate_layout.go:998-1013 | secrets with the key 1 beside a string key that is not written lose the value under it |
| NestedConfig.StringKeyNotEnough | cmd/cluster_migrate_layout.go:998-1013 | with the string key sops holding a scalar, nothing apart from the written paths is lost |
| NestedConfig.RewriteTwice | cmd/cluster_migrate_layout.go:950-1013 | rewriting twice is rewriting once |
| NestedConfig.PlacesAreWritten | cmd/cluster_migrate_layout.go:967-972 | which of the new places each of the six settings holds |
| NestedConfig.AuthIsWritten | cmd/cluster_migrate_layout.go:974-977 | the key pair for the repository is written exactly where its mapping held something |
| TagWip.LookBack | hack/tag_wip_failures.py:107-110 | the nearest line above that is not blank |
| TagWip.TagFeatureFile | hack/tag_wip_failures.py:78-137 | ends although it inserts into the list it scans, and gives the lines and count of tagging line by line; written exactly if something was tagged |
| TagWip.MarkedHasSpace | hack/tag_wip_failures.py:118-122 | the tag is always set off by a space |
| TagWip.EveryFailureIsTagged | hack/tag_wip_failures.py:78-137 | afterwards every failing scenario stands under a tag line with the tag |
| TagForms.FailingIff | hack/tag_wip_failures.py:73-101 | the lines taken for failing are those of indent, keyword, space and a name that was given |
| TagForms.GivenAreTagged | hack/tag_wip_failures.py:78-137 | given scenarios stay and end under a tag line with the tag; above other lines nothing comes in; only a tag line without the tag right above a given scenario changes |
| TagForms.NewTagIs | hack/tag_wip_failures.py:125-128 | a new tag line has the scenario's indent |
| TagForms.CountIs | hack/tag_wip_failures.py:113-137 | the number returned is that of the tag lines that hold the tag now and did not before |
| TagWords.TagHeldIff | hack/tag_wip_failures.py:113-131 | they all stand under the tag as a word if and only if none stood under a tag line that holds it only inside longer words |
| TagWords.LongerTagMisleads | hack/tag_wip_failures.py:113-124 | a failing scenario under one tag that is longer is left alone, without the tag as a word |
| TagWip.OnlyTagsAdded | hack/tag_wip_failures.py:105-131 | all lines stay in order; only tag lines right above failing scenarios change, by the tag, and only untagged failing scenarios get a new line |
| TagWip.SecondRunChangesNothing | hack/tag_wip_failures.py:78-137 | a second run changes nothing and returns 0; 0 is returned exactly if all was tagged |
| Inventory.NodesFromValue | cmd/cluster_status_inventory.go:337-365 | ends on every tree, with the nodes in the order of lists and sorted keys |
| Inventory.SortKeys | cmd/cluster_status_inventory.go:353-357 | the sorted keys, whatever the order of iteration |
| Inventory.Collector.AppendNode | cmd/cluster_status_inventory.go:397-409 | appends unless a node with the same key is there |
| Inventory.Collector.MergeValues | cmd/cluster_status_inventory.go:289-315 | fills blank network fields and appends the nodes of five keys |
| Inventory.Fill | cmd/cluster_status_inventory.go:294-308 | a field that is blank takes the first offer that is not |
| Inventory.ParseModule | cmd/cluster_status_inventory.go:229-249 | merges a module's objects in order, child modules last; a root module replaces it |
| Inventory.ParseResources | cmd/cluster_status_inventory.go:251-273 | merges the attributes of every instance |
| Inventory.ReadState | cmd/cluster_status_inventory.go:200-227 | the whole state: outputs, values, resources |
| InventoryOrder.EnumerateModule | cmd/cluster_status_inventory.go:229-249 | the values read from a module are, in document order, its outputs, those of its resources and all in its child modules, or all in its root module alone |
| InventoryOrder.EnumerateState | cmd/cluster_status_inventory.go:200-287 | the values merged for a state are those at its addresses, all of them, in document order: outputs, the module tree, instance attributes |
| InventoryNodes.DescribesIff | cmd/cluster_status_inventory.go:380-395 | a node has the first name, internal and external address given, its name being the internal address if it has none |
| InventoryNodes.EnumerateNodes | cmd/cluster_status_inventory.go:337-365 | the nodes of a value are those at its addresses, through lists in order and objects by sorted keys |
| InventoryNodes.EnumerateObject | cmd/cluster_status_inventory.go:310-314 | the nodes of an object are those of its five node fields, with their roles |
| InventoryNodes.StateMetIff | cmd/cluster_status_inventory.go:200-365 | the nodes met in a state are those at its addresses |
| InventoryNodes.StateNodesIff | cmd/cluster_status_inventory.go:200-409 | the inventory of a state free of NUL lists nodes at its addresses alone, and one like each of them |
| InventoryNodes.NetworkFields | cmd/cluster_status_inventory.go:294-308 | each network field is the first text, not blank, offered under its keys by the values met |
| InventoryLaws.KeyIsInjective | cmd/cluster_status_inventory.go:401-405 | for NUL-free nodes keys agree exactly on equal role, name and addresses |
| InventoryLaws.NodesAreDistinct | cmd/cluster_status_inventory.go:397-409 | no two listed nodes agree in role, name and both addresses |
| InventoryLaws.StateNodesAreFirstOccurrences | cmd/cluster_status_inventory.go:200-409 | for a NUL-free state the list is the traversal's nodes, each at its first occurrence |
| InventoryLaws.FieldsAreFirst | cmd/cluster_status_inventory.go:294-308 | each network field is the first offer of the whole traversal that is not blank |
| InventoryLaws.MergeTwice | cmd/cluster_status_inventory.go:289-315 | merging the same values twice changes nothing more |
| InventoryLaws.MergeLater | cmd/cluster_status_inventory.go:289-315 | nor does merging them again after others |
| InventoryKeys.KeyTellsApartIff | cmd/cluster_status_inventory.go:401-405 | a key tells a node from every other, or every other of its role, if and only if no field of it holds NUL |
| InventoryKeys.NodesAreFirstsIff | cmd/cluster_status_inventory.go:289-409 | over any state the list is the first occurrences if and only if no two unlike nodes met share a key; otherwise it is shorter |
| InventoryKeys.StateLosesNode | cmd/cluster_status_inventory.go:309-409 | a state with two controllers whose name and address run together alike gives an inventory with one |
| InventoryKeys.NulMakesKeysCollide | cmd/cluster_status_inventory.go:309-409 | for any name and address, a NUL on either side of the separator makes such a state |
| TfScan.StripInlineComments | hack/scripts/tf2yaml.py:24-67 | the right-trimmed text before the first comment outside strings |
| TfScan.CountBraces | hack/scripts/tf2yaml.py:70-105 | counts exactly the braces outside strings, by the stripper's quote state |
| TfScan.StripTwice | hack/scripts/tf2yaml.py:24-67 | stripping gives a comment-free prefix and is idempotent |
| TfScan.StrippedCount | hack/scripts/tf2yaml.py:195-200 | braces of a stripped line are those outside strings before the first comment |
| TfScan.RawCountAgrees | hack/scripts/tf2yaml.py:254-256 | counting a raw line agrees exactly if its comment has no brace outside strings |
| TfScan.BraceInComment | hack/scripts/tf2yaml.py:254-256 | a line on which it does not |
| TfPieces.CommentIsCut | hack/scripts/tf2yaml.py:24-67 | behind plain characters, escapes and quoted strings a comment with either mark is cut off; marks in strings or behind a backslash are not |
| TfPieces.NothingIsCut | hack/scripts/tf2yaml.py:24-67 | without a comment only the space at the end goes |
| TfPieces.CountIsPlain | hack/scripts/tf2yaml.py:70-105 | the braces counted are the plain ones |
| TfParse.Collect | hack/scripts/tf2yaml.py:184-200 | takes lines until the braces balance, no sooner and no later |
| TfParse.ParseAssignments | hack/scripts/tf2yaml.py:148-209 | ends, with word keys from the lines read and converted values, after a lone closing brace or at the end |
| TfParse.ParseValue | hack/scripts/tf2yaml.py:179-207 | the object over several lines, the object on one line, or the scalar |
| TfParse.ParseObject | hack/scripts/tf2yaml.py:212-224 | the assignments between the outer braces |
| TfScalars.AssignedIff | hack/scripts/tf2yaml.py:173-177 | a line is an assignment exactly if it is a word, an equals sign and a value with any space between |
| TfScalars.ScalarIs | hack/scripts/tf2yaml.py:120-141 | a value is taken without outer space and commas; lists, truth values, natural numbers and quoted strings pass, all else is quoted |
| TfPrint.PrintedReadsBack | hack/scripts/tf2yaml.py:148-224 | assignments and blocks printed line by line, nested to any depth, parse back to what they say |
| TfPrint.CommentedReadsBack | hack/scripts/tf2yaml.py:148-224 | so they do with comments and space behind the lines |
| TfOneLine.OneLineObject | hack/scripts/tf2yaml.py:203-224 | an object whose inner text is on one line has what that line assigns: one entry, or none |
| TfOneLine.FirstTakesAll | hack/scripts/tf2yaml.py:179-224 | of plain entries on one line, the first key with all the rest for its value |
| TfOneLine.ManyAreLost | hack/scripts/tf2yaml.py:148-224 | two or more entries with different keys on one line, whatever their values, are never what comes out |
| TfOneLine.YieldsEntriesIff | hack/scripts/tf2yaml.py:148-224 | plain entries on one line come out if and only if there is at most one |
| TfOneLine.TwoGiveOne | hack/scripts/tf2yaml.py:154 | two plain entries give the first key with the quoted rest |
| TfParse.CommentsDoNotMatter | hack/scripts/tf2yaml.py:148-224 | lines that differ only in comments and trailing space parse alike |
| TfParse.StrippedFirst | hack/scripts/tf2yaml.py:163-166 | stripping all lines beforehand changes nothing |
| TfParse.DecodeSingleIff | hack/scripts/tf2yaml.py:136-141 | a text is the rest of a single-quoted scalar of x exactly if it is x with its quotes doubled, and a quote, and x holds no control character other than tab |
| DocsGenerate.DecodeIff | cmd/docs/generate.go:139-146 | a text is the rest of a double-quoted scalar of x exactly if it is spelled from legal pieces that mean x, and a quote |
| TfParse.QuotedReadsBack | hack/scripts/tf2yaml.py:112-141 | a value that does not pass is quoted, and reads back if and only if it holds no control character other than tab; one that passes is unchanged, and in single or double quotes reads as x if and only if it is spelled so |
| TfParse.ScalarTwice | hack/scripts/tf2yaml.py:112-141 | converting a converted value changes nothing |
| TfParse.LoneQuote | hack/scripts/tf2yaml.py:136-137 | a quoted string with a single undoubled quote inside, and a quote alone, pass and do not read back |
| DocsGenerate.PassesAreOne | cmd/docs/generate.go:139-146 | the five replacements are one escape of each character |
| DocsGenerate.EscapesReadBack | cmd/docs/generate.go:139-146 | undoing the escapes gives back every value |
| DocsGenerate.QuoteReadsBack | cmd/docs/generate.go:139-146 | the quoted text is a YAML scalar with the value exactly if it has no other control characters |
| DocsGenerate.QuoteIsInjective | cmd/docs/generate.go:139-146 | different values are quoted differently |
| DocsGenerate.Places.Replace | cmd/docs/generate.go:191-219 | on success the output is the stage, and of the backup only what could not be removed is left; on failure the stage stays and the old output is in place or whole in the backup, with when each; the reserved directory stays behind, empty, if it cannot be removed |

## Left out

- Assignment: JSON, floats and durations are behind an abstract codec; map keys are strings and integers; Go types are finite, so recursive types are not covered; interfaces with methods are never satisfied. Values shared between two parts of a target are not covered.
- SecretsSync: SyncSecrets is a step with any reply; cluster discovery, output and context cancellation are not modelled.
- Drift: resource kinds and field names are constructors instead of texts, item messages are not modelled; case folding covers ASCII letters; sort.Slice is any sorting function; severities outside the three classes do not occur.
- DesiredState: identifiers taken from the configuration are plain strings, and configuration defaults are not modelled.
- CustomMigration: what a symbolic link leads to is stored with the link, so two links to one file are not one file; permissions, failing disks and special files are not modelled; git mv is a rename; the manifest is an input and does not change; report texts are not modelled (the source's text for a linked destination names only the destination), nor is sorting them.
- Kustomization: YAML text is behind a codec; for the laws it must read back the documents it parsed with plain file names appended, and new ones; comments, tags and styles are not modelled.
- NestedConfig: nested maps are values; the source updates them in place, so a map reachable by two paths is not covered. Sanitising and writing the file are not modelled.
- Inventory: configuration and Kubernetes sources, mergeInventory and rendering.
- TfParse.QuotedReadsBack: lists, booleans and strings of digits pass unchanged and are given no YAML reading.
- TfOneLine.FirstTakesAll: keys and values are words; of other values only that they never come out as two entries is stated.
- TfPrint.PrintedReadsBack: each value is on one line, without plain braces, and the braces of a block at the end of its first line and alone on its last; objects on one line are in TfOneLine.
- TfScan: locating blocks by regular expression in parse_locals and parse_modules, and writing the YAML file.
- DocsGenerate: page generation and existing front matter; the reader of double-quoted scalars knows one line and the one-character escapes, not \x, \u, \U, \L and \P or line folding; which file system calls fail is an input.
- TagWip: running the test suite and reading its report.
- The organisation-wide layout migration: a cluster name followed by a dash may begin another cluster's key file, so its sources need not be distinct.
- Command wiring, prompts, printing, cloud providers, SOPS, kubectl, locks, key rotation and manifest promotion.

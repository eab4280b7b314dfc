# EchoState, modelled in Dafny

EchoState scans hosts, stores each scan as a snapshot, mirrors snapshots into a graph, compares them, and protects all
of it with enrollment codes and passkeys. This project models its algorithms and state machines and proves what they
promise, for every input and every run.

- `UnionFind`, `PartitionOrder`, `Clusters` - the parent forest with path halving, refined against a simple partition,
  and the clusters built from it: they are the classes of the reflexive, symmetric and transitive closure of the pairs.
- `Base64` - the passkey codec in the browser, and the standard codec for blobs.
- `AuthState`, `AuthService` - codes, attempt windows, enrollment sessions, challenges, credentials: the service as a
  class, and properties of all its runs.
- `Bundle*` - export and import. `BundleMerge` holds three ways of merging a table (by id or natural key, by id, always
  upserted) with their general laws; `Bundle` the tables and constraints; `BundleStore` and `BundleService` the loops in
  a transaction; `BundleOverwrite`, `BundleResolve`, `BundleTheorems`, `BundleReferences`, `BundleTangled`,
  `BundleOrder` and `BundleRoundTrip` what follows.
- `Trace*`, `Divergence` - traceroute hops written to the graph and read back, and where vantages part.
- `GraphNodes`, `GraphView`, `GraphSignals` - node ids, response assembly, comparison of two responses, certificate
  names, RPKI status.
- `RouteDiff`, `DiffEntries`, `DiffSections`, `DiffCompute`, `DiffSilence`, `DiffSeverity` - the comparison of two
  scans, written twice in the repository for routes, how the two relate, and exactly when something is reported.
- `ClusterRows`, `Base64Letters`, `AuthOrigins`, `AuthRecovery`, `BundleFields`, `ImportPolicies`, `TraceShown`,
  `TraceTies`, `DivergencePoints`, `GraphShown`, `SanNames`, `DiffReport`, `DiffReadings`, `WebReadings` - what all this
  shows from outside: results said on rows, records, characters and JSON, without the functions that compute them.
- `TextFacts`, `Readings` - the same for trimming, case, decimal numbers and the readers of JSON fields.
- `Common`, `Counting`, `Values`, `Json` - folds, sorting, strings, decoded JSON, decimal numbers.

Loops and in-place updates are methods and classes whose contracts equate the new state with a function of the old;
theorems are about those functions. Ranging over a Go map is modelled as an arbitrary order, and `sort.Slice` as an
arbitrary sorted rearrangement. A database transaction is a class whose fields are committed at the end or dropped.
`now`, random values, the ceremony's outcome, host normalization, case folding outside ASCII and the printing of
numbers and composite values are parameters, so every theorem holds whatever they are. Summary sentences of changes are
represented by the values they name, in order.

Where the code differs from what one would expect, the model follows the code, and the exact condition is proved:
failures at the very end of an attempt window are not limited (`AuthRuns.FullWindowCountsIff`,
`AuthRuns.EdgeIsUnbounded`); a recovery registration with another user's credential id leaves the user without a
credential (`Registration.RecoveryLeavesOneCredential`); overwriting can take a target's host away and is then not
idempotent (`ResolveProofs.OverwriteResolvesIff`, `OverwriteProofs.OverwriteTwiceIffUntangled`); a second export can
list the blobs in another order (`BundleRoundTrip.BlobOrderKeptIff`); a scan synchronised under a snapshot's id a second
time leaves hops of the first (`TraceRoundTrip.ReadsLastScanIff`); the id of a cluster can depend on the order of the
pairs (`PartitionOrder.RootFixedIff`); the alert and the route diff read RPKI status, lower-case origins and null
addresses differently (`Routes.RpkiAgreeIff`, `Routes.RoaChangesUnseen`, `Routes.OriginsAgreeIff`,
`Routes.IpsAgreeIff`); two spellings of one security header with different values can make a scan differ from itself (`DiffSilence.SelfCompareSilentIff`).

## Model

| member | source | states |
|---|---|---|
| `Partition.SameRepIffLinked` | internal/db/neo4j_clusters.go:120-123 | after all pairs are merged, two ids have the same representative exactly when a chain of pairs links them, in both directions |
| `Partition.PartitionIgnoresOrder` | internal/db/neo4j_clusters.go:120-123 | any two pair lists with the same pairs put the same ids together |
| `PartitionOrder.RootPossibleIff` | internal/db/neo4j_clusters.go:51-72 | the root does depend on pair order: among the orders that respect the rank by shared count, in some order r represents x exactly when r is linked to x and each rank joins to the cluster that r has in the ranks above only pieces in which some id is second, in a pair of that rank, to an id of that cluster |
| `PartitionOrder.RootFixedIff` | internal/db/neo4j_clusters.go:132-150 | so the root, and the cluster id made of it, is the same in all these orders exactly when no other id can be it |
| `PartitionOrder.OneRank` | internal/db/neo4j_clusters.go:51-72 | with equal counts any order is possible, and r can represent its cluster exactly when it is first in a pair with some id of every piece that is left without it |
| `Partition.RepIsFixed` | internal/db/neo4j_clusters.go:43-49 | a representative represents itself |
| `UnionFind.UnionFind.constructor` | internal/db/neo4j_clusters.go:35-41 | every id is its own root: a valid forest that has merged nothing |
| `UnionFind.UnionFind.Find` | internal/db/neo4j_clusters.go:43-49 | terminates on the ranks of a forest it rewrites as it walks, returns the root of the id, keeps the forest valid and changes no id's root |
| `UnionFind.UnionFind.Union` | internal/db/neo4j_clusters.go:51-57 | keeps the forest valid and moves exactly the ids of the second root under the first |
| `UnionFind.HalvingKeepsRank` | internal/db/neo4j_clusters.go:45 | pointing an id at its grandparent keeps parents strictly above children |
| `UnionFind.HalvingKeepsRoots` | internal/db/neo4j_clusters.go:45 | and changes no id's root |
| `UnionFind.LinkMerges` | internal/db/neo4j_clusters.go:51-57 | linking one root under the other gives the roots of the merged partition |
| `UnionFind.MergeRefines` | internal/db/neo4j_clusters.go:51-57 | one union step of the forest refines one merge of the quick-find partition |
| `UnionFind.UnionAll` | internal/db/neo4j_clusters.go:120-123 | the union loop leaves a valid forest whose roots are the representatives of the pair list |
| `Clusters.ReadRows` | internal/db/neo4j_clusters.go:88-108 | the record loop keeps the pairs with two non-empty ids, their ids, and for each id the host of its last pair |
| `Clusters.Group` | internal/db/neo4j_clusters.go:125-129 | each group holds the sorted ids of one root, and each id is in the group of its root |
| `Clusters.Emit` | internal/db/neo4j_clusters.go:131-163 | ranging over the groups in any order emits one cluster for each group of two or more, sorted |
| `Clusters.GetInfraClusters` | internal/db/neo4j_clusters.go:88-165 | the whole computation returns the cluster list that the pairs define |
| `Clusters.ClusterListUnique` | internal/db/neo4j_clusters.go:131-165 | the pairs define exactly one cluster list, so nothing depends on map order |
| `Clusters.ClustersWellFormed` | internal/db/neo4j_clusters.go:131-163 | cluster ids are distinct, counts are member counts of at least two, members are strictly sorted |
| `Clusters.SameClusterIffLinked` | internal/db/neo4j_clusters.go:114-156 | two different ids stand in one cluster exactly when a chain of pairs links them |
| `Clusters.ClustersDisjoint` | internal/db/neo4j_clusters.go:125-156 | no id is in two clusters |
| `Clusters.EveryIdClustered` | internal/db/neo4j_clusters.go:125-156 | when every pair joins two different ids, every id of a pair is in a cluster |
| `Clusters.CountsAddUp` | internal/db/neo4j_clusters.go:149-155 | and the target counts add up to the number of ids |
| `Base64.UrlRoundTrip` | frontend/lib/auth.ts:77-95 | decoding the encoding of any bytes gives the bytes back |
| `Base64.UrlEncodeShape` | frontend/lib/auth.ts:83 | the encoding has only URL-safe characters, no padding, length ceil(4n/3), never 1 modulo 4 (section 5 of RFC 4648) |
| `Base64.UrlDecodeExactly` | frontend/lib/auth.ts:86-95 | for every value, its own padding and white space included: when decoding succeeds, and what it returns |
| `Base64.UrlDecodePlain` | frontend/lib/auth.ts:86-95 | without either, exactly the two alphabets and a length that is not 1 modulo 4 |
| `Base64.CanonicalIffEncoded` | frontend/lib/auth.ts:77-95 | a text survives decoding and encoding again exactly when it is the encoding of something |
| `Base64.BytesInverse` | frontend/lib/auth.ts:83-89 | regrouping sextets whose spare bits are zero into bytes and back is the identity |
| `Base64.SextetsKeepGroups` | frontend/lib/auth.ts:83 | each group of four sextets is the 24-bit number of its three bytes (section 4 of RFC 4648) |
| `Base64.BufferToBase64Url` | frontend/lib/auth.ts:77-84 | the loop builds the binary string of all bytes; the result is the URL encoding |
| `Base64.Base64UrlToBuffer` | frontend/lib/auth.ts:86-95 | replaces, pads, decodes and copies: the decoder function, or failure where atob throws |
| `Base64.CopyOut` | frontend/lib/auth.ts:90-93 | the copy loop fills the array with the character codes in order |
| `Base64.GoRoundTrip` | internal/export/service.go:125-125 | what the export writes for a blob, the import decodes to the same bytes |
| `AuthService.Service.constructor` | internal/auth/service.go:75-77 | a service over empty tables |
| `AuthService.Service.IssueEnrollmentCode` | internal/auth/service.go:231-265 | inserts an unused code with no attempts that expires after the configured time, or fails and changes nothing |
| `AuthService.Service.CheckEnrollmentIPLimit` | internal/auth/service.go:344-365 | blocked exactly when the address has reached the limit in a window that began less than its length ago; changes nothing |
| `AuthService.Service.RecordIPFailedAttempt` | internal/auth/service.go:367-388 | counts one failure in the stored window, or opens a new one; only the attempt windows change |
| `AuthService.Service.FailEnrollmentVerify` | internal/auth/service.go:390-407 | counts the wrong attempt on the code and on the address and chooses the error |
| `AuthService.Service.FindNewest` | internal/auth/service.go:293-299 | a code row with the hash that no other is newer than, or none if there is none |
| `AuthService.Service.VerifyEnrollmentCode` | internal/auth/service.go:272-334 | every branch: blocked, empty, unknown, spent, locked, missing user, disabled user, accepted; with the whole new state |
| `AuthService.Service.CreateEnrollmentSession` | internal/auth/service.go:409-426 | stores the session under the token's hash, an empty purpose as the initial one |
| `AuthService.Service.LookupEnrollmentSession` | internal/auth/service.go:433-446 | finds a session that has not expired; changes nothing |
| `AuthService.Service.DeleteEnrollmentSession` | internal/auth/service.go:456-459 | removes exactly the session of the token |
| `AuthService.Service.OpenSession` | internal/auth/service.go:461-475 | stores a signed-in session |
| `AuthService.Service.Save` | internal/auth/service.go:503-518 | stores a challenge |
| `AuthService.Service.Load` | internal/auth/service.go:520-537 | returns a live challenge of the kind and removes it |
| `AuthService.Service.Store` | internal/auth/service.go:539-553 | inserts the credential; an existing credential id keeps its owner |
| `AuthService.Service.DeleteAllCredentialsExcept` | internal/auth/service.go:663-669 | removes exactly the user's other credentials |
| `AuthService.Service.DeleteCredential` | internal/auth/service.go:671-682 | removes the credential if it is the user's own, and fails otherwise |
| `AuthService.Service.CloseSession` | internal/auth/service.go:498-501 | removes exactly the signed-in session of the token |
| `AuthRuns.FreshCodeHasNoAttempts` | internal/auth/service.go:306-310 | over any run, a code still unused and unexpired has no attempts against it |
| `AuthRuns.AcceptedExactly` | internal/auth/service.go:272-334 | over any run, a code is accepted exactly when its address is not blocked and it is a known, unused, unexpired code of an enabled user; the per-code lockout never decides |
| `AuthRuns.AcceptedAtMostOnce` | internal/auth/service.go:322-326 | over any run each code row is accepted at most once, and is used afterwards |
| `AuthRuns.ChallengesConserved` | internal/auth/service.go:503-537 | over any run, challenges saved under an id are those loaded plus those still stored; so one saved once is loaded at most once |
| `AuthRuns.RateBound` | internal/auth/service.go:344-388 | over any run and for a non-empty address: at most MaxCodeAttempts failures before the end of one window, window starts more than a window apart, at most twice the limit in any half-open interval of one window |
| `AuthRuns.FullWindowCountsIff` | internal/auth/service.go:361-385 | a failing call against a full window is counted in it exactly when it comes at the instant the window ends; later ones open a new window |
| `AuthRuns.EdgeIsUnbounded` | internal/auth/service.go:361-385 | so that instant has to be left out of the bound: any number of failures is recorded there |
| `AuthRuns.LogInvariants` | internal/auth/service.go:367-388 | the stored window is the log's last one, with its number of failures, over any run |
| `Registration.WebauthnRegisterFinish` | internal/handlers/auth.go:105-168 | the handler over the five service calls, with every early return |
| `Registration.FinishEffect` | internal/handlers/auth.go:126-149 | what one registration does to the challenge, the enrollment and the credentials |
| `Registration.RecoveryLeavesOneCredential` | internal/handlers/auth.go:136-142 | under a live recovery enrollment the user ends with exactly the new credential if and only if its id was fresh or the user's own; then others' credentials are unchanged, and always enrollment and challenge are gone |
| `Registration.OrdinaryRegistrationAdds` | internal/handlers/auth.go:131-144 | without one the user keeps every credential and gains the new one |
| `BundleService.Database.constructor` | internal/db/db.go:55-235 | an empty store satisfies the constraints |
| `BundleService.Database.ExportAll` | internal/export/service.go:26-289 | the bundle lists every table, once a row, in the order of its query, names under any collation |
| `BundleService.Database.ImportBundle` | internal/export/service.go:301-721 | rejects a missing bundle, another version, an unknown policy; on any error the tables are the old ones; otherwise tables and counts are what the import function says, with every constraint kept |
| `BundleStore.BuildBundle` | internal/export/service.go:26-289 | each list holds one item for each row, converted, in the order of its query: by time, or by name for collections and webhooks; blobs and configuration only if asked for |
| `BundleStore.Query` | internal/export/service.go:65-104 | reading a table: its rows once each, in the order of the query |
| `BundleStore.Transaction.FindByKey` | internal/export/service.go:368-368 | the row with the natural key, if there is one |
| `BundleStore.Transaction.ImportTarget` | internal/export/service.go:334-401 | one target: by id, by host, or new; under either policy; a duplicate host fails |
| `BundleStore.Transaction.ImportTargets` | internal/export/service.go:333-402 | the loop over targets refines the fold of that step; the first failure ends it |
| `BundleStore.Transaction.ImportSnapshot` | internal/export/service.go:405-472 | one snapshot under its mapped target; an unmapped target or a skipped id is counted, a missing target fails |
| `BundleStore.Transaction.ImportSnapshots` | internal/export/service.go:404-473 | the loop over snapshots |
| `BundleStore.Transaction.ImportBlob` | internal/export/service.go:476-489 | one blob: undecodable content, a missing snapshot and a reused id fail; a conflict on snapshot and kind replaces content |
| `BundleStore.Transaction.ImportBlobs` | internal/export/service.go:475-490 | the loop over blobs |
| `BundleStore.Transaction.ImportCollection` | internal/export/service.go:494-550 | one collection: by id, by name, or new |
| `BundleStore.Transaction.ImportCollections` | internal/export/service.go:493-551 | the loop over collections |
| `BundleStore.Transaction.ImportMember` | internal/export/service.go:562-570 | one membership upserted |
| `BundleStore.Transaction.ImportMembers` | internal/export/service.go:553-571 | the loop over memberships passes over those whose collection or target is not mapped |
| `BundleStore.Transaction.ImportNote` | internal/export/service.go:574-625 | one note with mapped target and collection |
| `BundleStore.Transaction.ImportNotes` | internal/export/service.go:573-626 | the loop over notes |
| `BundleStore.Transaction.ImportView` | internal/export/service.go:629-678 | one graph view with mapped target; a duplicate name fails |
| `BundleStore.Transaction.ImportViews` | internal/export/service.go:628-679 | the loop over graph views |
| `BundleStore.Transaction.ImportWebhooks` | internal/export/service.go:681-701 | the loop over webhooks |
| `BundleService.RunImport` | internal/export/service.go:333-717 | the loops in their order; the first failure ends the run |
| `NamedProofs.MergeNamedKeeps` | internal/export/service.go:333-402 | merging by id or key deletes no row, keeps keys unique, maps every bundle id to a live row, counts every item once, and when skipping changes no old row |
| `NamedProofs.AgreementResolves` | internal/export/service.go:333-402 | when ids agree on their key, every bundle id is mapped to a row with the item's key |
| `NamedProofs.SkipResolvesIffAgree` | internal/export/service.go:346-350 | when skipping, that holds exactly when ids agree |
| `NamedProofs.SkipTwice` | internal/export/service.go:346-375 | skipping again changes nothing and imports nothing |
| `OverwriteProofs.OverwriteEnds` | internal/export/service.go:351-401 | after overwriting, every item has its own row or was merged into an old row that no earlier item had reached by id |
| `ResolveProofs.OverwriteResolvesIff` | internal/export/service.go:351-401 | for any items, every bundle id is mapped to a row with its items' key exactly when items with one id have one key and no new id has the key of an old row that only later items rename |
| `ResolveProofs.DistinctUntangledIff` | internal/export/service.go:351-401 | for distinct ids and keys that is: no item is merged by key into a row that a later item renames |
| `OverwriteProofs.OverwriteTwiceIffUntangled` | internal/export/service.go:351-401 | and exactly then, for distinct ids and keys, overwriting again succeeds without changing a row |
| `ByIdProofs.MergeByIdKeeps` | internal/export/service.go:404-473 | merging by id alone: rows, counts and constraints |
| `ByIdProofs.ByIdSkipTwice` | internal/export/service.go:413-417 | skipping again imports nothing |
| `ByIdProofs.ByIdOverwriteTwice` | internal/export/service.go:439-467 | overwriting again changes nothing when ids are distinct |
| `PutProofs.PutAllKeeps` | internal/export/service.go:475-490 | an upserted table holds for each key the last item's content, and what it held before otherwise |
| `PutProofs.PutTwice` | internal/export/service.go:553-571 | upserting the same items again changes nothing |
| `BundleTheorems.ImportKeeps` | internal/export/service.go:327-721 | every successful import keeps all constraints, deletes nothing, when skipping changes no old target, snapshot, collection, note or view, and imported plus skipped is the bundle's count for each of the five |
| `BundleTheorems.TargetsResolveToTheirHost` | internal/export/service.go:333-402 | every bundle target is mapped to a live row with its host exactly when: skipping, shared ids agree on the host; overwriting, targets with one id have one host and no target is merged by host into a row that only later targets rename |
| `BundleTheorems.SnapshotsLand` | internal/export/service.go:404-473 | every snapshot is an old one unchanged or a bundle one under its mapped target |
| `BundleTheorems.SnapshotsKeepTheirHost` | internal/export/service.go:404-473 | when targets are mapped to their host, every written snapshot lies under the host it had at the source |
| `BundleReferences.CollectionsResolveToTheirName` | internal/export/service.go:493-551 | the same for collections and their names |
| `BundleReferences.MembershipsKeepTheirEnds` | internal/export/service.go:553-571 | when targets and collections are so mapped, every new membership joins the host and the name it joined at the source |
| `BundleReferences.NotesKeepTheirReferences` | internal/export/service.go:573-626 | and every written note is one of the bundle's whose references to bundle targets and collections lead to the same host and name, any other reference being kept |
| `BundleReferences.ViewsKeepTheirTarget` | internal/export/service.go:628-679 | likewise the target of every written graph view |
| `BundleTheorems.SkipImportTwice` | internal/export/service.go:333-717 | a second skip import of the same bundle leaves the store as it is but for the settings time, and imports nothing |
| `BundleTheorems.OverwriteImportTwice` | internal/export/service.go:333-717 | a second overwrite import of a bundle without repeated ids, hosts or names leaves the store as it is exactly when no target and no collection is merged by key into a row that a later one renames |
| `BundleTangled.OverwriteCanTakeHostAway` | internal/export/service.go:351-387 | a store and a bundle whose overwrite import leaves no row with a target's host and puts its snapshot under another host |
| `BundleTangled.OverwriteTwiceCanChange` | internal/export/service.go:351-401 | importing that bundle again inserts the target anew and moves the snapshot to it |
| `BundleRoundTrip.ImportOfExport` | internal/export/service.go:26-289 | importing a full export into an empty store succeeds under either policy, skips nothing, and gives back the store with its nulls filled in |
| `BundleRoundTrip.RoundTrip` | internal/export/service.go:26-721 | exporting again gives the same items in every list exactly when no target was exported with an empty normalized host that the import fills in; and in any case, blobs apart, the same timestamp at every position, or for collections and webhooks a name that the collation does not tell apart |
| `BundleOrder.SortedAlike` | internal/export/service.go:37-250 | two lists of the same values that are sorted by one order agree in rank at every position |
| `BundleRoundTrip.BlobsInAnyOrder` | internal/export/service.go:475-490 | the import gives all blobs one creation time, so any order of them can come back |
| `BundleRoundTrip.BlobOrderKeptIff` | internal/export/service.go:106-127 | every second export keeps the blobs in the source's order of time exactly when the source created them all at one time |
| `TraceSync.ReadVantages` | internal/db/neo4j_sync.go:569-594 | the listed vantages that are objects, or the plain hops as one local vantage |
| `TraceSync.Store.MergeHop` | internal/db/neo4j_sync.go:486-495 | finds or creates the hop, sets its properties, ties it to its target if known |
| `TraceSync.Store.LinkNext` | internal/db/neo4j_sync.go:513-518 | links the previous hop to this one if both exist |
| `TraceSync.Store.LinkShared` | internal/db/neo4j_sync.go:529-535 | merges the shared address and ties the hop to it |
| `TraceSync.Store.LinkReached` | internal/db/neo4j_sync.go:546-552 | merges the resolved address and ties the hop to it |
| `TraceSync.Store.SyncHop` | internal/db/neo4j_sync.go:477-563 | the four statements for one hop with their conditions |
| `TraceSync.Store.SyncVantage` | internal/db/neo4j_sync.go:456-564 | the loop over one vantage's hops, with the previous hop carried along |
| `TraceSync.Store.SyncTraceroute` | internal/db/neo4j_sync.go:435-567 | the loop over the vantages; nothing without a traceroute or if it was skipped |
| `TraceProofs.LastWrite` | internal/db/neo4j_sync.go:455-495 | the writes of a scan end, for each hop key, with the last entry of that number in the vantages of that name |
| `TraceProofs.AfterWrites` | internal/db/neo4j_sync.go:486-509 | every hop then holds its last write, or what it held before |
| `TraceProofs.SyncTwice` | internal/db/neo4j_sync.go:435-567 | synchronising the same scan again changes nothing in the whole graph |
| `TraceProofs.OtherSnapshotsKept` | internal/db/neo4j_sync.go:486-495 | synchronising a snapshot leaves every other snapshot's hops and their ties as they were |
| `TraceRoundTrip.RunHolds` | internal/db/neo4j_sync.go:435-567 | over any run of synchronisations the graph holds of a snapshot exactly the hops that its synchronisations sighted, each as the last scan listed it that listed it at all |
| `TraceRead.Query` | internal/db/neo4j_graph.go:312-339 | the matching hops, one row each, ordered by target, vantage and number |
| `TraceRead.Group` | internal/db/neo4j_graph.go:351-404 | each group shows its rows in order and is named by its first row |
| `TraceRead.ReadPaths` | internal/db/neo4j_graph.go:351-420 | one path for each group, hops sorted by number, paths by label and vantage |
| `TraceRead.GetPaths` | internal/db/neo4j_graph.go:296-421 | query and grouping together |
| `TraceRead.GroupsAreTargetAndVantage` | internal/db/neo4j_graph.go:371-371 | with colon-free target ids, rows share a group exactly when they share target and vantage |
| `TraceRead.ColonsMerge` | internal/db/neo4j_graph.go:371-371 | a colon inside a target id would let two targets share a group |
| `TraceRoundTrip.ReadBack` | internal/db/neo4j_graph.go:296-421 | reading a snapshot gives what the graph holds of it: one path for each vantage with a positive hop, each number once and ascending |
| `TraceRoundTrip.RunReadBack` | internal/db/neo4j_graph.go:296-421 | the round trip over runs: whatever is synchronised in whatever order, the reading shows exactly what the snapshot's synchronisations sighted |
| `TraceRoundTrip.ReadsLastScanIff` | internal/db/neo4j_sync.go:477-495 | after a run that ends with a scan of the snapshot the reading is that scan exactly when it sights every hop that an earlier scan of the snapshot sighted; hops are never removed |
| `TraceRoundTrip.RoundTrip` | internal/db/neo4j_sync.go:435-594 | in particular, if the snapshot always stands for one scan, then once it was synchronised, and however often, reading it gives exactly the scan |
| `TraceRoundTrip.ReadingsAgree` | internal/db/neo4j_graph.go:406-420 | two readings of the same sightings are the same list |
| `SetDiff.StringDiff` | internal/db/route_diff.go:257-280 | the sorted additions and removals |
| `SetDiff.NothingAddedOrRemoved` | internal/db/route_diff.go:263-279 | both are empty exactly when the two have the same elements |
| `Divergence.CommonPrefixLongest` | internal/db/neo4j_graph.go:483-491 | the common prefix is common, and no longer one is |
| `Divergence.PathHopIps` | internal/db/neo4j_graph.go:466-476 | the addresses, "*" for a hop that timed out or has none |
| `Divergence.CompareTraceroutePaths` | internal/db/neo4j_graph.go:478-518 | 0 for equal sequences, else one past the longest common prefix; the addresses only one side has, sorted, timeouts aside |
| `Divergence.ComparePair` | internal/db/neo4j_graph.go:436-456 | a pair of paths is reported exactly when the hop sequences differ, with the fields the report shows |
| `Divergence.GroupByTarget` | internal/db/neo4j_graph.go:424-430 | non-empty paths by target, in order |
| `Divergence.CompareGroup` | internal/db/neo4j_graph.go:437-458 | every pair of one target's paths whose sequences differ is reported once |
| `Divergence.BuildVantageDivergence` | internal/db/neo4j_graph.go:423-464 | over all targets: exactly the pairs of non-empty paths of one target whose hop sequences differ, each once, sorted by target |
| `NodeIds.IdsInjective` | internal/db/neo4j_graph.go:904-954 | among the types of the graph views, ids are equal exactly for the same type and identifying property, or the same hop |
| `NodeIds.HopIdsEqualIff` | internal/db/neo4j_graph.go:925-939 | exactly which two hops share an id, in both id formats |
| `NodeIds.NumberedSnapshotsCollide` | internal/db/neo4j_graph.go:935-938 | with a plain number for a snapshot two hops would share an id |
| `NodeIds.NoIdIff` | internal/db/neo4j_graph.go:931-933 | there is no id exactly for a hop without target or positive number |
| `GraphView.AddNode` | internal/db/neo4j_graph.go:858-865 | a shown node is put under its id |
| `GraphView.Assemble` | internal/db/neo4j_graph.go:89-126 | the record loop: nodes by id, an edge for each record with two shown ends |
| `GraphView.NodesAre` | internal/db/neo4j_graph.go:858-865 | every node stands under its own id, and every added node's id is present |
| `GraphView.EndpointsPresent` | internal/db/neo4j_graph.go:103-125 | every edge's ends are in the node map, and its id spells them |
| `GraphView.NodesApart` | internal/db/neo4j_graph.go:904-954 | two nodes share an id exactly if they are the same node, even across two responses |
| `GraphView.ShownOnce` | internal/db/neo4j_graph.go:89-126 | every node the records show stands in the response exactly once |
| `GraphView.Missing` | internal/db/neo4j_graph_opts.go:80-99 | what one set has and the other has not, each once |
| `GraphView.DiffTopology` | internal/db/neo4j_graph_opts.go:55-106 | the four differences of ids exactly, and changed exactly if an id set differs; nothing if a response is missing |
| `GraphView.AddedNodesAreNew` | internal/db/neo4j_graph_opts.go:65-84 | a node's id is reported as added exactly when no record of the baseline shows the node |
| `CertSans.FirstsAre` | internal/db/neo4j_sync.go:263-277 | the kept names are distinct, not empty, and all of the scan's |
| `CertSans.FirstsGrow` | internal/db/neo4j_sync.go:266-277 | later names only add to the end, so stopping at the limit keeps the first ones |
| `CertSans.SanStore.constructor` | internal/db/neo4j_sync.go:251-262 | a store that knows the targets and no names yet |
| `CertSans.SanStore.MergeSan` | internal/db/neo4j_sync.go:279-299 | one name: its node, its tie to the target, its ties to other targets with that host |
| `CertSans.SanStore.SyncCertSans` | internal/db/neo4j_sync.go:251-308 | exactly the first 50 distinct normalized names are merged, tied to the target and to every other target scanned under that name |
| `Rpki.OverallRpkiStatus` | internal/db/neo4j_sync.go:690-723 | invalid if any ROA is, otherwise valid if any is, otherwise empty |
| `Routes.ReadAsPaths` | internal/db/route_diff.go:218-232 | the sorted non-empty paths, read alike by both packages |
| `Routes.CompareBgpRoutes` | internal/db/route_diff.go:145-172 | both ends of every value, the exact differences, and changed exactly if one of the four changed |
| `Routes.CompareTracerouteRoutes` | internal/db/route_diff.go:174-188 | hop counts and exact differences; changed exactly if the number or the set of addresses differs |
| `Routes.SameOrdered` | internal/diff/graph.go:209-219 | equality of sequences |
| `Routes.CompareHops` | internal/diff/graph.go:80-103 | added and removed hops, or the mark of another order |
| `Routes.DiffTracerouteDrift` | internal/diff/graph.go:74-104 | the same over two scans |
| `Routes.DriftEmptyIff` | internal/diff/graph.go:74-104 | nothing is reported exactly when the answering hops are the same in the same order |
| `Routes.IpsAgreeIff` | internal/diff/graph.go:179-186 | exactly when both packages read a hop's address alike |
| `Routes.AlertCoversRouteDiff` | internal/diff/graph.go:74-104 | on addresses both read alike, the alert reports whatever the route diff calls changed, and beyond that exactly the rearrangements |
| `Routes.NullAddressHidesChange` | internal/db/route_diff.go:249-252 | a null address is dropped by one and printed by the other, so a change can pass the alert |
| `Routes.OriginsAgreeIff` | internal/db/route_diff.go:202-216 | an origin is read alike exactly when upper-casing changes nothing of it |
| `Routes.OriginsAgree` | internal/diff/graph.go:118-136 | then both packages list the same origins |
| `Routes.DiffBgpRouteDrift` | internal/diff/graph.go:17-72 | verdict, origins and paths compared for the alert; a new path is a warning only beside a removed one |
| `Routes.BgpDriftEmptyIff` | internal/diff/graph.go:17-72 | nothing is reported exactly when routing is gone, or verdict, origins and paths are as before |
| `Routes.AlertCoversBgpDiff` | internal/diff/graph.go:17-72 | while routing is present and both packages read origins and RPKI alike, the alert reports exactly the changes of origins and paths that the route diff sees, and of the RPKI status those to a known one |
| `Routes.RpkiAgreeIff` | internal/diff/graph.go:157-166 | the packages read the RPKI status alike exactly when there is no RPKI section, or it stores the verdict that its ROAs give |
| `Routes.RoaChangesUnseen` | internal/diff/graph.go:25-32 | for sections without a stored verdict, origins and paths being the same, the alert is silent exactly when RPKI data is absent now or was there before: every ROA change passes unseen |
| `FieldDiffs.RedirectReportedIff` | internal/diff/intel.go:308-339 | a redirect is reported exactly when there is one and its length or end differs |
| `DiffSilence.TimersExact` | internal/diff/diff.go:349-369 | a timer is reported exactly if it went from one positive value to another, and with which entry |
| `DiffSilence.SoaSilentIff` | internal/diff/diff.go:311-372 | zone data is silent exactly when server and contact show nothing new and no number went from one positive value to another |
| `DiffSilence.TlsSilentIff` | internal/diff/diff.go:88-139 | the certificate is silent exactly when no value is new, issuer and serial only counting from a known one, the days have not dropped, it has not just expired, and stapling is the same |
| `DiffSilence.BgpSilentIff` | internal/diff/diff.go:141-204 | the origin network is silent exactly when no value is new, or when an empty section went |
| `DiffSilence.MailSilentIff` | internal/diff/diff.go:234-309 | policy and grade are silent exactly when neither is new |
| `DiffSilence.RoutesSilentIff` | internal/diff/graph.go:10-15 | both drift reports together |
| `ListDiffs.DiffNames` | internal/diff/diff.go:212-227 | names that were not there before, sorted |
| `ListDiffs.NewNamesIff` | internal/diff/intel.go:386-407 | an entry for each name that was not there before, and no other |
| `DiffSilence.CertificatesExact` | internal/diff/intel.go:466-505 | a certificate is reported exactly if it has a serial that no previous certificate had, and with which entry |
| `ListDiffs.DiffStringSetChanges` | internal/diff/intel.go:569-598 | sorted additions, then sorted removals |
| `DiffEntries.SetChangesEmptyIff` | internal/diff/intel.go:569-598 | nothing is reported exactly when the sets are equal |
| `ListDiffs.SetChangesReversed` | internal/diff/intel.go:569-598 | comparing the other way round reports the same items, removed for added |
| `FieldDiffs.PublishedReversed` | internal/diff/intel.go:128-200 | for TLS-RPT and BIMI, what was published one way round is withdrawn the other way, and nothing is reported exactly for equal values |
| `ListDiffs.DiffCaa` | internal/diff/intel.go:40-61 | CAA records, by record text or tag and value |
| `ListDiffs.ReadVersions` | internal/diff/diff.go:471-489 | versions by lower-case slug |
| `ListDiffs.LastVersionCounts` | internal/diff/diff.go:477-487 | the last item with a slug gives its version |
| `ListDiffs.VersionHasItem` | internal/diff/diff.go:477-487 | and there is no version without an item |
| `ListDiffs.DiffWordPressItems` | internal/diff/diff.go:430-469 | added, changed and removed items, in whatever order the maps are ranged over |
| `ListDiffs.WordPressExact` | internal/diff/diff.go:437-467 | an entry is reported exactly for an item that appeared, went, or has another version |
| `ListDiffs.WordPressEmptyIff` | internal/diff/diff.go:430-469 | nothing is reported exactly when both scans show the same items with the same versions |
| `ListDiffs.WordPressReversed` | internal/diff/diff.go:430-469 | comparing the other way round reports the same items: removed for added, and versions exchanged |
| `SectionDiffs.DiffGeneric` | internal/diff/diff.go:498-526 | every untracked key, in whatever order |
| `SectionDiffs.GenericExact` | internal/diff/diff.go:498-526 | an entry is reported exactly for an untracked key that is new, gone, or holds another value |
| `SectionDiffs.GenericReversed` | internal/diff/diff.go:498-526 | comparing the other way round reports the same keys: removed for added, changed for changed |
| `SectionDiffs.SecurityHeaderValue` | internal/diff/intel.go:450-464 | one of the values the lookup may settle on |
| `SectionDiffs.DiffSecurityHeaders` | internal/diff/intel.go:409-448 | the watched headers as they were read, before and now |
| `DiffSilence.CtSilentIff` | internal/diff/diff.go:206-232 | certificate transparency is silent exactly when every name and every serial was there before |
| `DiffSilence.DnsSilentIff` | internal/diff/intel.go:9-24 | DNS is silent exactly when CAA, TLS-RPT and BIMI are the same, and DNSSEC, MTA-STS and PTR show nothing new |
| `DiffSilence.ContactsExact` | internal/diff/intel.go:248-259 | a contact is reported exactly if it was not listed before |
| `DiffSilence.TxtSilentIff` | internal/diff/intel.go:224-272 | security.txt is silent exactly when it is there or not as before, lists no new contact and no new expiry |
| `DiffSilence.CrawlSilentIff` | internal/diff/intel.go:26-38 | the three crawled files together |
| `SectionDiffs.DiffWeb` | internal/diff/diff.go:374-404 | title, WordPress, redirects, HSTS, cookies and headers; an added section alone if there was none |
| `DiffCompute.Compute` | internal/diff/diff.go:29-60 | nothing without a previous scan or a current one; otherwise a rearrangement of the eleven parts in which severity never rises |
| `DiffCompute.SeverestFirst` | internal/diff/diff.go:612-626 | what any minimum severity lets through of a report is a prefix of it |
| `DiffSilence.WebSilentIff` | internal/diff/diff.go:374-404 | the web section is silent exactly when it is gone, or was there and title, items, redirects, HSTS, cookies and the headers as read show nothing new |
| `DiffSilence.GenericSilentIff` | internal/diff/diff.go:498-526 | and the rest exactly when every untracked key holds what it held |
| `DiffSilence.SilentIff` | internal/diff/diff.go:29-60 | for any two scans, nothing is reported exactly when all sections are silent in this sense |
| `DiffSilence.ReportEmptyIff` | internal/diff/diff.go:29-60 | and exactly then what Compute returns is empty |
| `DiffSilence.AlwaysSilentIff` | internal/diff/diff.go:29-60 | no run can report anything exactly when moreover no reading of a watched header shows a new value |
| `DiffSilence.SelfCompareSilentIff` | internal/diff/diff.go:29-60 | a scan compared with itself reports nothing, whatever the runtime picks, exactly when every watched header can be read in one way only |
| `DiffSilence.SelfCompareReturnsNothing` | internal/diff/diff.go:29-60 | and then the result is empty |
| `DiffSilence.UniqueNamesUnambiguous` | internal/diff/intel.go:450-464 | header names that are unique ignoring case can be read in one way only |
| `DiffSeverity.CriticalIff` | internal/diff/diff.go:88-204 | of all eleven parts only an expiring certificate and a moved or endangered network raise a critical change, and exactly those |
| `DiffSeverity.CriticalFirstIff` | internal/diff/diff.go:56-59 | and exactly then such a change heads the result |
| `ClusterRows.TogetherIffChained` | internal/db/neo4j_clusters.go:88-156 | said on the rows alone: two different ids stand in one cluster exactly when a chain of rows with two non-empty ids joins them |
| `ClusterRows.RowsClustered` | internal/db/neo4j_clusters.go:88-156 | every row with two different non-empty ids puts both into one cluster |
| `ClusterRows.ClusterNamed` | internal/db/neo4j_clusters.go:149-152 | a cluster is called "cluster:" and one of its ids |
| `ClusterRows.ClusterShows` | internal/db/neo4j_clusters.go:103-107 | and shows the sorted hosts of its ids, each as the last row that names the id gave it |
| `ClusterRows.LargestFirst` | internal/db/neo4j_clusters.go:158-163 | larger clusters come first, and of one size those with the smaller name |
| `Base64Letters.UrlLetters` | frontend/lib/auth.ts:77-84 | the URL text letter by letter: letter k is the one that table 2 of RFC 4648 gives for six bits of the bytes, from bit 6k |
| `Base64Letters.StandardLetters` | internal/export/service.go:125-125 | likewise the text of a blob, with table 1 and "=" up to a multiple of four |
| `Base64Letters.UrlDecodes` | frontend/lib/auth.ts:86-95 | for any value, on its characters: which of them are skipped, which may stand where, when decoding succeeds, and every byte as eight bits of the letters |
| `Base64Letters.GoDecodes` | internal/export/service.go:477-480 | the same for the decoder of the import, which skips line breaks only, reads one alphabet and asks for full padding |
| `AuthOrigins.CodeOrigin` | internal/auth/service.go:231-265 | over any run every code row was issued by a call with its user, its code, its purpose and its times |
| `AuthOrigins.VerifyAnswers` | internal/auth/service.go:272-334 | over any run and on the rows: which of the answers a call gives, and what it changes |
| `AuthOrigins.AcceptedAsIssued` | internal/auth/service.go:322-333 | over any run an accepted code names the row it found, the user and purpose it was issued with, a blank purpose as the initial one, and was issued no longer ago than codes last |
| `AuthOrigins.EnrollmentOrigin` | internal/auth/service.go:409-426 | over any run every enrollment row was opened by a call with its token, user and purpose, fifteen minutes before it expires |
| `AuthOrigins.SessionFoundIff` | internal/auth/service.go:433-446 | over any run a session is found exactly while its row is there and has not expired |
| `AuthOrigins.ChallengeOrigin` | internal/auth/service.go:503-518 | over any run every challenge row was saved by a call with its owner, kind and data |
| `AuthOrigins.ChallengeFoundIff` | internal/auth/service.go:520-537 | over any run a challenge is handed out exactly while its row is there, of the kind asked for and not expired, and is gone then |
| `AuthOrigins.DeletionsExact` | internal/auth/service.go:456-459 | signing out, ending an enrollment and deleting credentials remove exactly the rows named |
| `AuthOrigins.CredentialStored` | internal/auth/service.go:539-553 | a new passkey gets its user, key, count and trimmed name; one that is there keeps user and name and takes the new key and count |
| `AuthRecovery.RecoveryEndToEnd` | internal/handlers/auth.go:50-149 | end to end over any run: a code issued for recovery is accepted, a session opened with what that returned, and while it is neither spent nor over the user registers a credential whose id is new or their own; then it is the only one they have, and nobody else's changed |
| `AuthRecovery.FinishAnswers` | internal/handlers/auth.go:105-168 | on the rows: which of its answers a registration gives |
| `BundleFields.TargetsExported` | internal/export/service.go:41-63 | each target once, column by column, nulls as empty values, oldest first |
| `BundleFields.SnapshotsExported` | internal/export/service.go:65-105 | each snapshot, by the time of the scan |
| `BundleFields.BlobsExported` | internal/export/service.go:107-130 | each blob, as text that decodes to its bytes, if blobs are asked for |
| `BundleFields.CollectionsExported` | internal/export/service.go:132-151 | each collection, by name |
| `BundleFields.MembersExported` | internal/export/service.go:153-172 | each membership, by the time it was added |
| `BundleFields.NotesExported` | internal/export/service.go:174-207 | each note, by its last change |
| `BundleFields.ViewsExported` | internal/export/service.go:209-243 | each graph view, by its last change |
| `BundleFields.ConfigExported` | internal/export/service.go:245-289 | each webhook by name, and the settings if they are an object, if the configuration is asked for |
| `ImportPolicies.RefusedExactly` | internal/export/service.go:301-321 | on the folded name: a missing bundle, another version, and any name but "", "overwrite" and "skip" are refused, the first of these that applies |
| `ImportPolicies.SkipKeepsOldRows` | internal/export/service.go:346-350 | "skip" leaves every old target, snapshot, collection, note and view as it was |
| `ImportPolicies.SkipCountsNewRows` | internal/export/service.go:333-679 | and counts as imported exactly the rows that were not there, the others as skipped |
| `ImportPolicies.OverwriteWritesItems` | internal/export/service.go:333-679 | "" and "overwrite" write every item of a bundle without repeats, column by column: targets and collections under their id or into the old row with their key, snapshots, notes and views under their id, with their references led to those rows |
| `ImportPolicies.OverwriteCountsItems` | internal/export/service.go:333-679 | and count every item, but for snapshots of unknown targets |
| `ImportPolicies.BlobsWritten` | internal/export/service.go:475-490 | the last blob of a snapshot and kind decides its content |
| `ImportPolicies.WebhooksWritten` | internal/export/service.go:681-701 | the last webhook of an id decides its columns but for an old row's age |
| `ImportPolicies.SettingsWritten` | internal/export/service.go:703-717 | settings are replaced if the bundle has some |
| `ImportPolicies.MembersWritten` | internal/export/service.go:553-571 | every membership with both ends in the bundle joins their rows |
| `TraceShown.RunShows` | internal/db/neo4j_graph.go:296-421 | field by field and on the scans' JSON: after any run the reading of a snapshot shows one path for each vantage some scan of it lists a hop in, with its label; and every hop with address, country, city, timeout, time, place and caption of the last entry with its number in the last scan that lists it |
| `TraceShown.VantagesListed` | internal/db/neo4j_sync.go:435-594 | which vantages a scan has |
| `TraceTies.SyncIsExact` | internal/db/neo4j_sync.go:435-567 | on the scan's JSON: after a synchronisation the hops, their ties to the target, the links between consecutive entries, the shared and the reached addresses are those of the scan with its stamp, and otherwise those there were |
| `TraceTies.QueryIsExact` | internal/db/neo4j_graph.go:312-339 | the query returns each hop tied to a known target once: all of them without filters, those of one target or one snapshot with one |
| `DivergencePoints.ReportMeans` | internal/db/neo4j_graph.go:436-518 | on the hops: a report names the first hop that one path lacks or that answers differently, and on each side the sorted addresses only it has |
| `DivergencePoints.DivergeIff` | internal/db/neo4j_graph.go:436-456 | and there is one exactly when two non-empty paths of a target part somewhere |
| `GraphShown.IdIs` | internal/db/neo4j_graph.go:904-954 | the id of a node of any type, property by property, from a table of the types |
| `GraphShown.NodesExact` | internal/db/neo4j_graph.go:89-126 | the nodes of a response are, for each id, the last node with it that the records show; a second end counts only if the first is shown |
| `GraphShown.EdgesExact` | internal/db/neo4j_graph.go:103-125 | its edges are, in record order, one for each record both whose ends are shown, from the first end to the second |
| `SanNames.KeptExactly` | internal/db/neo4j_sync.go:263-277 | a certificate name is kept exactly when some entry gives it, without a last dot and in small letters, and fewer than fifty other names come before that entry |
| `SanNames.ScanNames` | internal/db/neo4j_sync.go:251-261 | the names are those listed in the certificate section |
| `DiffReport.TlsExact` | internal/diff/diff.go:88-139 | which entries the certificate section gives, each with kind, severity, field and the values it names in order |
| `DiffReport.BgpExact` | internal/diff/diff.go:141-204 | the same for the origin network |
| `DiffReport.BgpDriftExact` | internal/diff/graph.go:17-72 | for the alert on origins, paths and verdict |
| `DiffReport.TracerouteExact` | internal/diff/graph.go:74-104 | for the alert on hops |
| `DiffReport.CtExact` | internal/diff/diff.go:206-232 | for certificate transparency |
| `DiffReport.MailExact` | internal/diff/diff.go:234-309 | for the mail policy and grade |
| `DiffReport.DnsExact` | internal/diff/intel.go:40-222 | for CAA, DNSSEC, MTA-STS, TLS-RPT, BIMI and PTR |
| `DiffReport.SoaExact` | internal/diff/diff.go:311-372 | for the zone |
| `DiffReport.CrawlExact` | internal/diff/intel.go:26-38 | for the three crawled files |
| `DiffReport.WebExact` | internal/diff/diff.go:374-404 | for title, WordPress, redirects, HSTS, cookies and headers |
| `DiffReport.KeysExact` | internal/diff/diff.go:498-526 | and for every other key |
| `DiffReport.ReportSays` | internal/diff/diff.go:29-60 | so what Compute returns holds exactly these entries, critical ones first, then warnings, then the rest |
| `Readings.StringValIs` | internal/diff/diff.go:528-541 | a field reads as the one text that is left of its string without white space at the ends, or as it prints; missing is empty |
| `Readings.ObjectsAre` | internal/diff/intel.go:600-612 | a list reads as its objects, in order |
| `DiffReadings.OriginsHave` | internal/diff/graph.go:118-136 | which origins are read, said on the JSON |
| `DiffReadings.AsPathsHave` | internal/db/route_diff.go:218-232 | which AS paths |
| `DiffReadings.AlertIpsAre` | internal/diff/graph.go:168-189 | which hops answer, and with which addresses, for the alert |
| `DiffReadings.GraphIpsAre` | internal/db/route_diff.go:234-255 | and for the route diff |
| `DiffReadings.OverallIs` | internal/db/neo4j_sync.go:690-723 | the RPKI verdict, said on the ROAs |
| `DiffReadings.CaaRecordsHave` | internal/diff/intel.go:46-61 | which CAA records |
| `WebReadings.PluginsAre` | internal/diff/diff.go:471-489 | which WordPress items, with which versions |
| `WebReadings.HeaderIs` | internal/diff/intel.go:450-464 | what a header may be read as: by its very name first, else by any name equal up to case |

## Left out

- BundleTheorems.OverwriteImportTwice: is about bundles without repeated ids, hosts or names, as every export is.
- Clusters.GetInfraClusters: the shared signals of a cluster are a further query and are not part of a cluster here.
- BundleService.Database.ImportBundle: every failure inside the transaction is one error, without its text; warnings, the queue of
  snapshots for the graph and the graph rebuild after the commit are not modelled.
- The JSON text of a bundle, raw data that is no object and references that do not parse: the model starts from decoded values.
- AuthRuns.RateBound: leaves out failures at exactly the end of a window, where the code sets no limit.
- The WebAuthn ceremony, the hash of codes and tokens, and random values: parameters. Role checks, profile updates and
  the other handlers would only add easy members.
- Database and network errors in the auth service, and calls that run at the same time: each call is one step.
- TraceRead.Query: the Cypher engine is represented by what the query returns; only the traceroute part of the
  synchronisation, the certificate names and the RPKI status are modelled of the graph writers.
- GraphView.Assemble: node labels, colours and the marks of shared nodes are presentation; the row limit of the query is part of its input.
- NodeIds.IdsInjective: unlisted node types, which no view shows, take their id from a lower-cased type and are not covered.
- DiffCompute.Compute: the marshalling of the current scan is the input; numbers are exact, so printing and comparing
  them as text is comparing their values.
- Strings are sequences of code points; byte lengths and the shortening of long labels are not modelled.
- Provider clients, HTTP plumbing, page components, scheduling and settings: I/O or easy.

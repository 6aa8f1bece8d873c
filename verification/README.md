# Verified models of Blimp's hard parts

Blimp runs Docker Compose projects in a shared Kubernetes cluster. This project
models the parts of it whose correctness is not visible in any one function, and
proves what they promise. `dafny verify dfyconfig.toml` checks all of it.

**Bind volumes** (`Wrappers`, `Paths`, `Strs`, `Sorting`, `RuleText`, `Stignore`,
`Collapse`, `Ties`, `BindVolumes`, `Orders`, `Masks`). The CLI compiles bind volumes to
mounts, merges nested mounts, and compiles each mount to ignore rules that are read first match
wins. Paths are sequences of components. The denotation is a set of paths, and the
end-to-end statement is that every path that a volume needs is synced, and nothing
outside the volumes but the directories above them. It holds for a processing order
exactly if the order has no *bad tie*: a file volume, in a mount that is not wholly
synced yet, whose parent directory is itself a volume and is processed later. The
sort by depth does not order the two, so the condition that a user can check is on
the volumes: some client for them loses something exactly if a file volume lies in a
directory volume that is in no other volume, and the directory of another file volume
lies strictly above. For `/p/file`, `/p/dir/f`, `/p/dir` the rule for the contents of
`dir` can come first, and then everything else in it is lost. This is exact unless "/"
and a directory right below it are both mounted, which the sort cannot tell apart.
Merging mounts may drop masks, and only for a reason: which masks of a volume that no
other volume holds stay is exact, and so is what they keep out of the sync.

**Persistent volumes** (`Volumes`, `VolumeSteps`, `VolumeRuns`, `VolumeBinds`,
`VolumeFates`). Each namespace claims one volume by optimistic updates while a volume controller binds,
releases, provisions and deletes. A read and the update that depends on it are
separate steps. The inductive invariant holds over all interleavings of any number of
namespaces. A namespace that comes back can get its volume bound exactly if the
controller has marked it as released when the namespace looks it up; otherwise the
call waits for ever. No volume is left behind without a label: it can get one, or be
deleted. From every reachable state in which nothing is under way for a namespace, a
call can complete: without a claim it can get a bound one, and if it deletes for good its
volume can be deleted.

**Sync status** (`SyncConn`, `SyncProtocol`, `Notifier`). CLIs that dial, answer
polls and redial; streams that break anywhere and lose what is on them; connections
that supersede each other; waiters that come, poll and are cancelled. The classes
are the two ends as they are locked and looped; the step system runs them together.
Whoever waits on a live connection is told once the CLI has synced, a CLI that lost its
connection can take over with another, and whoever cancels hears nothing.

**Boot** (`Pods`, `Wait`, `Boot`, `BootProgress`, `BootSafety`, `BootEnds`). A project's
services become pods whose init containers seed volumes and wait for other pods and for
the sync. The node controller sees pods through an informer that lags behind. Safety is over whole
runs, and so is the absence of deadlock. The two conditions on container statuses
are satisfied by a status that lists nothing yet, so a service may start early. Safety
is proved for everything that was not seen in such a status, and for every project it
is decided which services can start at all in some run, and which can start early: of
those that can start, the ones that share a native volume with one they do not start
after, and the ones with a dependency on another's health. A project is safe exactly
if there are neither. A service that is seen to have ended, before one that waits for
its start has found it running, blocks that one for good.

**Notifications** (`Watch`, `Notifications`). Watchers merge notifications in
channels that hold one, and WatchStatus merges two watchers once more. No change of a
watched source is lost, and a loop that is out of date can always catch up.

**Logs** (`Logs`, `LogWindows`). Lines are forwarded once over any number of broken
connections, exactly if no break falls between two lines with one timestamp, and so for
every break exactly if timestamps strictly increase; after other breaks it is exact
which lines are missing. Windows print what they received, each line with its own text
and time, in the stable order of the timestamps.

**Deployment and tunnels** (`Deploy`, `LinkTunnel`, `Tunnel`). Pods are recreated
exactly when they do not agree with what is desired. Deploying the same objects once
more recreates those created the first time, exactly if they came with a map of
annotations (or are ambiguous). The byte streams of the tunnels come out as they went
in: the end is announced whenever the sender returns on a tunnel that works, and any
stream, in any pieces, can be copied to its end.

## Assumptions

- Paths are clean and absolute, contain no pattern characters, and no component
  begins with two dots (`Paths.PlainName`; `Paths.DotDotNamesLookUnnested` shows what
  happens otherwise). For the statements about whole clients, `/` and a directory right
  below it are not both mounted (`Orders.NeverNestedExactly` and `Orders.LostBesideRoot`
  show why). No mask is the volume itself. Whether a path is a directory is a
  parameter.
- The store of volumes compares versions on every update. One call of CreatePVC or
  PermanentlyDeletePVC per namespace is under way at a time, calls do not fail midway
  for other reasons than those modelled, and a namespace's claim is deleted from
  outside only between calls. Binding a claim and its volume is one step, and a
  claim that names no volume is only given an available one.
- The tunnel, gRPC and log streams deliver in order and break at any point.
- Pod names, folder identifiers and encodings of pods are injective. A runtime
  container may end for good; readiness is not lost before that, and pods are not
  recreated during a run of `Boot`. A status that says that a pod runs lists its
  containers. That booting completes assumes that nothing that is depended on has ended
  or ends meanwhile.
- The select statements of the loops are lists of outcomes, over all of which the
  statements quantify.

## Model

| member | source | states |
|---|---|---|
| `Paths.GetSubpath` | pkg/syncthing/client.go:515-521 | a child has a relative path exactly if the parent is a prefix of it, and the two joined give the child |
| `Strs.Unique` | pkg/strs/strings.go:3-13 | the result has the same elements, each once |
| `RuleText.ComparatorOnText` | pkg/syncthing/client.go:92-118 | the comparator on rule strings is depth, then directory contents, then text, on the rules themselves |
| `RuleText.TextInjective` | pkg/syncthing/client.go:75-82 | different rules have different texts, so removing duplicate strings removes duplicate rules |
| `RuleText.LessTotal` | pkg/syncthing/client.go:88-119 | the comparator orders any two different rules one way |
| `RuleText.LessTransitive` | pkg/syncthing/client.go:88-119 | the comparator is transitive |
| `RuleText.SortedListIsUnique` | pkg/syncthing/client.go:88-119 | a set of rules has one sorted list, though the sort is not stable |
| `Stignore.RulesToIncludePath` | pkg/syncthing/client.go:552-569 | terminates, and gives the include of the path and, for every directory above it, its include and the exclusion of its contents |
| `Stignore.GetStignore` | pkg/syncthing/client.go:74-133 | the rules are exactly those of the includes and ignores, strictly sorted, with the catch-all for a mount that is not wholly synced |
| `Stignore.StignoreIsCanonical` | pkg/syncthing/client.go:75-133 | the rules depend only on the mode and the sets of includes and ignores |
| `Stignore.StignoreExists` | pkg/syncthing/client.go:74-133 | every mount compiles to some list of rules |
| `Stignore.UnignoredExactly` | pkg/syncthing/client.go:61-133 | without any assumption on the includes, which paths first-match reading leaves in a mount that is not wholly synced |
| `Stignore.UnignoredWhenFlat` | pkg/syncthing/client.go:61-133 | with no include below another, exactly the trees of the includes and the directories above them are synced |
| `Stignore.UnignoredWhenSyncAll` | pkg/syncthing/client.go:79-133 | in a wholly synced mount, exactly the paths under no ignore are synced |
| `Collapse.AbsorbCovers` | pkg/syncthing/client.go:202-281 | in all four cases, the merged mount covers what the absorbed one did |
| `Collapse.AbsorbGrows` | pkg/syncthing/client.go:202-281 | and what the absorbing one did |
| `Collapse.AbsorbStaysInside` | pkg/syncthing/client.go:202-281 | and nothing outside the two trees |
| `Collapse.AbsorbKeepsValid` | pkg/syncthing/client.go:51-59 | includes are only set if not wholly synced, ignores only if so |
| `Collapse.MergeIgnores` | pkg/syncthing/client.go:213-245 | one merge keeps an ignore of a wholly synced parent exactly if it is unrelated to the child, or lies below the child and the child is wholly synced and ignores it too |
| `Collapse.AbsorbAllIgnores` | pkg/syncthing/client.go:195-285 | after all merges, exactly the ignores are left that every absorbed mount spares |
| `Collapse.CollapseCovers` | pkg/syncthing/client.go:190-287 | what a mount covers is covered by the mount it ends up in |
| `Collapse.CollapseStaysInside` | pkg/syncthing/client.go:190-287 | what a collapsed mount covers is in the tree of one of the volumes |
| `Collapse.CollapsedValid` | pkg/syncthing/client.go:51-59 | every collapsed mount uses only the list of its mode |
| `Collapse.CollapsedNotNested` | pkg/syncthing/client.go:183-287 | processed shallowest first, no collapsed mount lies under another, so folder identifiers differ |
| `Collapse.AbsorbedByExactlyOne` | pkg/syncthing/client.go:190-287 | exactly one collapsed mount lies at or above every mount |
| `Ties.CollapseStaysFlat` | pkg/syncthing/client.go:195-287 | without a bad tie, no include list ever holds an entry below another |
| `Ties.CollapseKeepsFile` | pkg/syncthing/client.go:195-287 | with one, some collapsed mount lists a file and its directory |
| `BindVolumes.SortMasks` | pkg/syncthing/client.go:523-532 | masks sorted by depth, the same ones |
| `BindVolumes.CollapseIgnores` | pkg/syncthing/client.go:523-550 | the collapsed masks cover the same paths and none covers another |
| `BindVolumes.SortMounts` | pkg/syncthing/client.go:183-188 | some permutation in order of depth |
| `BindVolumes.MountFor` | pkg/syncthing/client.go:153-172 | the mount of one volume, a directory or a file |
| `BindVolumes.FilterIgnores` | pkg/syncthing/client.go:213-245 | the ignores that survive absorbing a mount, which are those of `Collapse.MergeIgnores` |
| `BindVolumes.Merge` | pkg/syncthing/client.go:202-281 | the four cases, as the specification of one merge |
| `BindVolumes.AbsorbNested` | pkg/syncthing/client.go:195-285 | the inner loop absorbs exactly the unskipped mounts below the parent |
| `BindVolumes.CollapseInPlace` | pkg/syncthing/client.go:190-287 | the nested loops with skipped indices compute the recursive collapse |
| `BindVolumes.NewClient` | pkg/syncthing/client.go:150-292 | the collapse of the volumes' mounts in some order that is sorted by depth |
| `BindVolumes.DepthOrder` | pkg/syncthing/client.go:183-188 | sorted by counting separators, every mount comes after those above it if and only if those at the root come first |
| `Orders.NeverNestedExactly` | pkg/syncthing/client.go:183-287 | no client for the volumes has nested mounts, however the sort decides, if and only if the root and a directory right below it are not both mounted |
| `BindVolumes.SyncsNothingElse` | pkg/syncthing/client.go:74-133 | every synced path is in a volume or a directory above one |
| `BindVolumes.FaithfulIffNoBadTie` | pkg/syncthing/client.go:150-292 | every path that a volume needs is synced through both stages, if and only if the order has no bad tie |
| `Orders.FaithfulHoweverSorted` | pkg/syncthing/client.go:150-292 | unless "/" and a directory right below it are both mounted, every client for the volumes syncs all that they need, however the sort decides, if and only if no file volume lies in a directory volume that is in no other, with the directory of another file volume strictly above |
| `Orders.LosesSometimes` | pkg/syncthing/client.go:150-292 | and such volumes lose something in some client wherever they are mounted |
| `Orders.LostBesideRoot` | pkg/syncthing/client.go:174-287 | with "/" and a directory right below it, volumes of which "/" holds all can lose something too |
| `Orders.ClientSyncsVolumes` | pkg/syncthing/client.go:150-292 | without that, and without such three volumes, the mounts of a client sync every path that a volume needs and nothing outside the volumes but the directories above them |
| `Orders.LostDirectoryExample` | pkg/syncthing/client.go:174-287 | three such volumes, and a client for them with a directory that is lost |
| `Masks.HeadKeeps` | pkg/syncthing/client.go:190-287 | a directory mount with none above it ends up as a mount of its own path, with exactly the ignores that every mount below it spares |
| `Masks.MaskedExactly` | pkg/syncthing/client.go:150-292 | a path in a directory volume that no other volume holds is kept out of every client exactly if it lies under a mask that is nested with no other volume below, or that such a volume has too |
| `VolumeSteps.StepKeepsInv` | cluster-controller/volume/volume.go:35-321 | every step of a call, of the controller or of the cluster keeps the invariant |
| `VolumeSteps.LocalKeepsInv` | cluster-controller/volume/volume.go:300-321 | a change to one volume and one namespace keeps the invariant if it does so there |
| `VolumeSteps.DeleteVolumeKeepsInv` | cluster-controller/volume/doc.go:48-58 | what the controller deletes is neither owned nor being created |
| `VolumeSteps.ClaimWriteKeepsInv` | cluster-controller/volume/volume.go:212-236 | labelling a free volume, or handing back an owned one, keeps the invariant |
| `VolumeSteps.OneHolder` | cluster-controller/volume/volume.go:158-215 | two calls never work on one volume |
| `VolumeRuns.ReachableOk` | cluster-controller/volume/volume.go:35-321 | the invariant holds over every run |
| `VolumeRuns.ClaimsNameOwnVolumes` | cluster-controller/volume/volume.go:63-90 | a namespace's claim is for a volume with its label, or for one that it has given up for deletion itself |
| `VolumeRuns.NoTwoClaimsForOneVolume` | cluster-controller/volume/volume.go:63-90 | no two namespaces' claims name one volume |
| `VolumeRuns.UnlabelledIsNeverAvailable` | cluster-controller/volume/volume.go:212-236 | a volume without a label is never available to a claim |
| `VolumeRuns.OneVolumeEach` | cluster-controller/volume/volume.go:280-293 | the lookup never finds two volumes for one namespace |
| `VolumeRuns.OnlyOwnerLetsGo` | cluster-controller/volume/volume.go:113-147 | a labelled volume stays, with its label, until its own namespace deletes it for good |
| `VolumeRuns.DeletingGivesUp` | cluster-controller/volume/volume.go:125-138 | the update takes the label away and leaves the volume to the controller, unless it is tried again or the volume is gone |
| `VolumeRuns.GivenUpStaysGivenUp` | cluster-controller/volume/doc.go:48-58 | a volume given up is not taken up by anybody |
| `VolumeRuns.ComingBackFreesVolume` | cluster-controller/volume/volume.go:68-75 | if the lookup found the namespace's volume released, the volume is freed for its next claim, with its label |
| `VolumeRuns.ReportedIsLabelled` | cluster-controller/volume/volume.go:210-241 | a call goes on to ask for the volume exactly if its label went in, although the flag is kept over refused updates; otherwise an owned volume is handed back with its label |
| `VolumeRuns.NeverAborted` | cluster-controller/volume/volume.go:250-257 | making a volume available never finds it bound |
| `VolumeRuns.OvertakenIsRefused` | cluster-controller/volume/volume.go:300-321 | an update that another write has overtaken changes nothing and is tried again from the read |
| `VolumeRuns.SeedMayTakeAnOwnedVolume` | cluster-controller/volume/volume.go:158-163 | in some run a seed is given another namespace's volume |
| `VolumeRuns.AtMostEightAttempts` | cluster-controller/volume/volume.go:153-246 | no call makes a ninth seed; one that has made eight in vain ends |
| `VolumeRuns.MakesAttempts` | cluster-controller/volume/volume.go:153-246 | some run makes all eight, each time given a volume that another namespace owns, and handing it back |
| `VolumeBinds.StaysStuck` | cluster-controller/volume/volume.go:92-102 | a call whose volume refers to an old claim of the namespace stays like that, whatever anybody does |
| `VolumeBinds.SeedsAlwaysWork` | cluster-controller/volume/volume.go:165-238 | whenever a seed holds a volume, the call that made it is on its way to letting go |
| `VolumeBinds.LentComesBack` | cluster-controller/volume/volume.go:158-235 | a volume that was given to another's seed comes back to the namespace that waits for it, and is bound |
| `VolumeBinds.BindsExactly` | cluster-controller/volume/volume.go:86-102 | from every reachable state before the claim is created, it can get bound, if and only if the volume does not refer to an old claim of the namespace |
| `VolumeBinds.ComesBackExactly` | cluster-controller/volume/volume.go:63-102 | a lookup of an owned volume leads to a bound claim in some run, if and only if it finds the volume released |
| `VolumeBinds.ComesBackTooSoon` | cluster-controller/volume/volume.go:68-75 | some run gets to a lookup after the old claim is gone and before its volume is marked as released |
| `VolumeFates.EveryVolumeHasAFate` | cluster-controller/volume/doc.go:48-58 | every volume has a label, or is held by a seed whose call is at work on it, or has been given up by a namespace whose claim is being deleted or gone |
| `VolumeFates.GivenUpIsDeleted` | cluster-controller/volume/doc.go:48-58 | what is given up is deleted within four steps: the claim's deletion and removal, the release and the deletion |
| `VolumeFates.DeletedForGood` | cluster-controller/volume/volume.go:113-147 | from every reachable state with nothing under way for a namespace whose claim names a volume, deleting for good starts a run of its own call and the controller, of seven steps at most, after which the volume is gone |
| `VolumeFates.NoVolumeLeftBehind` | cluster-controller/volume/volume.go:187-246 | from every reachable state a volume can get a label or be deleted |
| `VolumeFates.CreationCanComplete` | cluster-controller/volume/volume.go:35-105 | from every reachable state with nothing under way for a namespace without a claim, CreatePVC can end with its claim bound, to its own volume if it has one |
| `SyncConn.ResultChan.Close` | node/wait/sync.go:179-182 | needs an open channel |
| `SyncConn.ResultChan.TrySend` | node/wait/sync.go:152-157 | needs an open channel, and keeps the first error |
| `SyncConn.CliConn.Register` | node/wait/sync.go:192-204 | a new waiter under an unused id |
| `SyncConn.CliConn.Cancel` | node/wait/sync.go:206-211 | the waiter is no longer registered; the others are as before |
| `SyncConn.CliConn.Notify` | node/wait/sync.go:177-183 | every registered waiter's channel is closed, none twice, and none stays registered |
| `SyncConn.CliConn.Drain` | node/wait/sync.go:146-158 | every registered waiter that has heard nothing gets the error, on an open channel |
| `SyncConn.CliConn.Shutdown` | node/wait/sync.go:227-232 | the first shutdown error is kept |
| `SyncConn.SyncTracker.Connect` | node/wait/sync.go:61-68 | the new connection is registered and the old one told to exit |
| `SyncConn.SyncTracker.Disconnect` | node/wait/sync.go:78-83 | removes the connection only if it is still the registered one |
| `SyncProtocol.StepKeepsInv` | node/wait/sync.go:58-232 | every step of CLIs, streams, handlers and waiters keeps the invariant |
| `SyncProtocol.NoLostWakeUp` | node/wait/sync.go:160-225 | on a live connection whose CLI has synced, a waiter that has polled and heard nothing has a poll, a pending reply or a positive reply under way |
| `SyncProtocol.QuietMeansResolved` | node/wait/sync.go:160-190 | when both loops have nothing left to handle, every such waiter has been told |
| `SyncProtocol.EverySchedule` | pkg/syncthing/notifier.go:37-56 | whatever order the two loops handle things in, that takes a bounded number of steps |
| `SyncProtocol.SomeSchedule` | pkg/syncthing/notifier.go:37-56 | such a schedule exists from every such state |
| `SyncProtocol.NewWaiterIsTold` | node/wait/sync.go:192-225 | a new waiter on a live connection gets an id of its own, is registered and polls; every schedule then tells it, once the CLI has synced |
| `SyncProtocol.RedialsAndSyncs` | pkg/syncthing/notifier.go:59-70 | from every reachable state a CLI without a connection can dial one that replaces what was registered, and sync on it |
| `SyncProtocol.LeavesBroken` | pkg/syncthing/notifier.go:16-57 | a CLI leaves a connection that broke in one step: it cannot reply, or hears that it is gone |
| `SyncProtocol.ResolvedMeansSynced` | node/wait/sync.go:94-123 | a waiter is told of a sync only if the CLI of its connection has seen it |
| `SyncProtocol.LatestIsRegistered` | node/wait/sync.go:61-83 | the registered connection is the one accepted last, and there is none exactly when that one is removed |
| `SyncProtocol.SupersededIsStopping` | node/wait/sync.go:61-64 | any other has a pending shutdown or has left Run |
| `SyncProtocol.ServesUntilReplaced` | node/wait/sync.go:58-90 | a registered connection that was not told to exit stays so until its stream breaks or another one is accepted for its namespace |
| `SyncProtocol.BrokenIsRemoved` | node/wait/sync.go:70-83 | the handler of a connection that broke takes in what got through, returns, and the connection is not registered any more |
| `SyncProtocol.ToldOnce` | node/wait/sync.go:145-190 | what a waiter has been told never changes |
| `SyncProtocol.CancelledHearsNothing` | node/wait/sync.go:206-211 | a waiter that is cancelled before it has been told anything never is, in any run |
| `SyncProtocol.FailedPollFailsEverybody` | node/wait/sync.go:215-232 | on a broken stream a registered waiter's poll can fail; then Run can be told to exit, and everybody registered has an error |
| `SyncProtocol.ExitTellsEveryone` | node/wait/sync.go:146-158 | when Run returns, every registered waiter had heard nothing and now has an error |
| `Notifier.Notifier.RunServer` | pkg/syncthing/notifier.go:16-57 | the loop goes on to the first event that ends the stream or whose reply does not get through; there is one reply for each event before, which tells whether the sync had completed by then, on this stream or before |
| `Notifier.Notifier.Run` | pkg/syncthing/notifier.go:59-70 | every stream is handled as far as it goes, and once the sync has completed every reply on every later stream says so |
| `Notifier.HandlingIsTwoSteps` | pkg/syncthing/notifier.go:38-52 | one turn of the loop is two steps of the protocol |
| `Pods.PodBuilder.constructor` | cluster-controller/pod.go:114-122 | for each volume, exactly the services that mount it |
| `Pods.PodBuilder.AddService` | cluster-controller/pod.go:115-122 | adds one service to its volumes and leaves the rest |
| `Pods.NativeSourcesExactly` | cluster-controller/pod.go:150-164 | native volumes are those not declared as named bind volumes |
| `Pods.BindSourcesExactly` | cluster-controller/pod.go:150-164 | bind volumes are those mounted as such, and the sources of named volumes declared as such |
| `Pods.PodBuilder.Sharers` | cluster-controller/pod.go:169-173 | each other service that mounts one of the volumes, once |
| `Pods.PodBuilder.ToPod` | cluster-controller/pod.go:136-204 | seeder, wait for sharers, wait for dependencies and wait for the sync, in this order, each exactly when it is called for |
| `Pods.PlannedExactly` | cluster-controller/pod.go:136-204 | the init containers are in that order, each at most once, exactly those called for, each for exactly the volumes, sharers and dependencies it is for |
| `Pods.MarshalDependencies` | cluster-controller/pod.go:546-588 | exactly the declared dependencies and the well-formed links without one, last name first |
| `Pods.MarshalledIsCanonical` | cluster-controller/pod.go:548-587 | whatever order the map is read in, the list is the same |
| `Pods.SharersSeedFirst` | cluster-controller/pod.go:114-180 | whoever is waited for has a seeder for a shared volume, before any wait |
| `Wait.SeederDoneExactly` | node/wait/wait.go:227-243 | the condition holds if the seeder is listed as completed, or not listed |
| `Wait.SeederDoneFirst` | node/wait/wait.go:227-243 | of any list of statuses, the first with the seeder's name decides |
| `Wait.CheckReady` | node/wait/wait.go:87-130 | one waiter for each known dependency condition, each sharer, and the sync if there are bind volumes, and no other; repeated ones are waited for again |
| `Wait.WaitForAll` | node/wait/wait.go:132-173 | ready exactly when as many results as waiters have come in, all of them and all updates before well, and that can be sent; the loop stops at the first failure or the last result |
| `Wait.WaitForPod` | node/wait/wait.go:175-209 | returns at the first look that satisfies the condition: a pod that runs, one that lists no container that is not ready, or one whose first seeder is listed as completed or that lists none |
| `Boot.ConditionsExactly` | node/wait/wait.go:211-243 | the health and the seeding condition hold exactly if what they say is so, or the status lists nothing; the started condition exactly if the pod has started and not ended |
| `Boot.StepKeepsInv` | node/wait/wait.go:87-243 | every step keeps that all that was waited for is so, or was seen in an empty status |
| `Boot.FinishedAfterLookingAtAll` | node/wait/wait.go:87-173 | an init container is let go only by a call that has itself looked at everything it waits for and found it ready; what an earlier call found does not count |
| `Boot.RetryStartsAfresh` | node/wait/wait.go:132-173 | a call can fail at any time, and then the init container is not let go by what it had found |
| `Boot.StartedIsJustified` | cluster-controller/pod.go:150-197 | when a runtime container has started, all that any of its init containers waited for is so, or was seen in an empty status |
| `Boot.SharersHaveSeeded` | cluster-controller/pod.go:166-181 | in particular, every service that shares a native volume has seeded it |
| `Boot.DependenciesWereMet` | cluster-controller/pod.go:183-189 | every started or healthy dependency, or link beside one, was met |
| `Boot.SyncHadFinished` | cluster-controller/pod.go:191-197 | with bind volumes, the CLI had reported the sync |
| `Boot.NeverBlind` | node/wait/wait.go:175-184 | if the informer only brings statuses that list their containers, nothing is seen in an empty one |
| `Boot.BootIsSafe` | cluster-controller/pod.go:150-197 | and then a service starts only when every sharer has seeded, every dependency is met and, with bind volumes, the sync is done |
| `BootSafety.StartsExactly` | cluster-controller/pod.go:150-197 | some run starts a service, if and only if what it starts after, through dependencies on being started, depends on services only and not in circles |
| `BootSafety.StartsEarlyExactly` | cluster-controller/pod.go:150-197 | some run starts a service before all it waits for is so, if and only if it can start, and shares a native volume with a service that it does not start after or depends on another's health |
| `BootSafety.UnsafeExactly` | node/wait/wait.go:211-243 | some run of a project starts some service early, if and only if one that can start shares a native volume or depends on another's health |
| `BootSafety.NeverStartsEarly` | cluster-controller/pod.go:166-197 | without such a share or dependency a service never starts early, whatever the informer brings |
| `BootSafety.StartsAlone` | cluster-controller/pod.go:166-197 | some run starts a service with everything that it does not start after still at its beginning, and nothing healthy |
| `BootSafety.SharingIsEnough` | cluster-controller/pod.go:169-181 | if a service that can start shares a native volume with another, one of the two can start and does not start after the other |
| `BootSafety.EmptyStatusIsUnsafe` | node/wait/wait.go:227-243 | of two services with one volume, one starts in some run while the other has yet to seed it |
| `BootProgress.WhyNotSeen` | node/wait/wait.go:175-243 | a check on a pod that is seen as it is fails only if what it is about is not so |
| `BootProgress.SeedingIsFree` | cluster-controller/pod.go:166-181 | a seeder that has not run is not waiting for anything |
| `BootProgress.DemandsKnown` | cluster-controller/pod.go:169-197 | a pod waits only for services that share its volumes and for its counted dependencies |
| `BootProgress.NextStep` | cluster-controller/pod.go:166-197 | with acyclic dependencies, the sync done and nothing that is depended on ended, a service that has not started leaves something to do |
| `BootProgress.BootCompletes` | node/wait/wait.go:211-243 | doing such things in any order starts every service within a bounded number of steps |
| `BootProgress.EveryRunCanComplete` | cluster-controller/pod.go:150-197 | from every reachable state in which the sync is done and nothing that is depended on has ended, completion is possible |
| `BootEnds.EndedIsNotSeen` | node/wait/wait.go:223-225 | a pod that is seen to have ended does not satisfy a waiter for its start, nor one for its health if it lists its container |
| `BootEnds.EndedDependencyBlocks` | node/wait/wait.go:175-225 | a service that has not found a dependency running before that is seen to have ended never starts, whatever happens |
| `BootEnds.EndingTooSoonBlocks` | node/wait/wait.go:211-225 | so a dependency that ends and is seen to, before it was found running, blocks the service in every run |
| `Watch.Watcher.Watch` | pkg/kube/watch.go:72-96 | a subscription under an unused id, with an empty channel of its own |
| `Watch.Watcher.NotifySubscribers` | pkg/kube/watch.go:98-122 | a full key is notified of exactly its object, one without a name of everything in its namespace, one without a namespace of that name anywhere, an empty one of everything; nobody else is, and nobody loses a notification |
| `Notifications.StepKeepsInv` | node/wait/wait.go:186-208 | every step keeps that unseen notifications are on their way |
| `Notifications.NothingIsLost` | pkg/kube/watch.go:98-122 | while the loop is blocked, a notification since its last read is in a channel or being carried |
| `Notifications.SeenIsCurrent` | cluster-controller/main.go:1071-1084 | if none from a watched source is on its way, and none is to come, the loop has seen the current state of that source |
| `Notifications.ChangeWakes` | cluster-controller/status.go:74-101 | a loop that is blocked on something out of date can be woken after a bounded number of handling steps, in whatever order |
| `Notifications.SomeSchedule` | cluster-controller/status.go:86-98 | such steps exist from every such state |
| `Notifications.CanBeWoken` | cluster-controller/main.go:1071-1084 | so every reachable loop that is blocked on something out of date can be woken |
| `Notifications.CatchesUp` | cluster-controller/status.go:74-101 | and it wakes, reads everything and blocks again having seen what there is, without another change |
| `Notifications.TimerLooksAgain` | node/wait/wait.go:186-208 | the timer of a pod waiter does so without a notification |
| `Logs.ReadStream` | cli/logs/logs.go:286-303 | one stream adds exactly the lines later than all sent before |
| `Logs.ForwardLogs` | cli/logs/logs.go:214-328 | what is forwarded is the log as far as any connection got, once and in order, if and only if no followed stream broke between two lines of one time; otherwise exactly the lines are missing that some connection is the first to get to and that have the timestamp of the last line before |
| `Logs.CleanExactly` | cli/logs/logs.go:228-234 | no break whatever falls between two lines of one time, if and only if timestamps strictly increase |
| `Logs.StartsInTime` | cli/logs/logs.go:252-259 | truncating the time to a second never makes the server skip a line |
| `Logs.FirstSinceExactly` | cli/logs/logs.go:252-259 | the server starts with the first line that is not before the time asked for, truncated to a second |
| `LogWindows.SortStable` | cli/logs/logs.go:399-403 | sorted by time, the lines of each time as they were |
| `LogWindows.PrintLogs` | cli/logs/logs.go:347-459 | each flush prints every line with text that arrived since the last one, once, with its own text, its own stamp or else the time it was received, earlier stamps first and equal ones in order of arrival |
| `LogWindows.WindowsHaveAll` | cli/logs/logs.go:424-458 | every received line is in exactly one window, or waits |
| `LogWindows.EveryLineIsPrinted` | cli/logs/logs.go:424-458 | whenever the timer has fired or the loop has ended, every line with text that has come in has been printed |
| `LogWindows.AllIsPrinted` | cli/logs/logs.go:347-459 | when the loop ends, every line but the empty error records has been printed once, and a container's lines in order of arrival if their times do not decrease |
| `LogWindows.StableKeepsOrder` | cli/logs/logs.go:400-403 | within a flush, such lines keep their order |
| `LogWindows.SortedIsUnique` | cli/logs/logs.go:403 | there is only one stable sort |
| `Deploy.PodCopy.IgnoreInitContainerImages` | pkg/kube/deploy.go:226-237 | each init container gets the image of the last current one of its name, or none, and stays as it is otherwise |
| `Deploy.PodCopy.IgnoreNodeAffinity` | pkg/kube/deploy.go:239-254 | overwrites the node affinity by the current one |
| `Deploy.ImagesKept` | pkg/kube/deploy.go:226-237 | overwriting the images gives the current containers exactly if they are the same but for the images, and no name has two |
| `Deploy.UpToDateExactly` | pkg/kube/deploy.go:84-98 | the comparison of encodings succeeds exactly if the pods agree but for init images and node affinity |
| `Deploy.OnlyTheRestMatters` | pkg/kube/deploy.go:226-254 | images of unambiguous init containers and the node affinity can change without a pod being recreated |
| `Deploy.OtherChangesMatter` | pkg/kube/deploy.go:84-98 | any other change recreates it |
| `Deploy.PodStore.DeployPod` | pkg/kube/deploy.go:72-126 | leaves the pod alone exactly if it is up to date and no restart is forced, and otherwise replaces it by the desired pod as it is, annotated with itself; the caller's pod is annotated exactly if it came with a map |
| `Deploy.PodStore.DeployCustomerPods` | cluster-controller/main.go:968-1000 | afterwards there are exactly the desired pods; those up to date are the same pods, the others new |
| `Deploy.PodStore.DeleteStale` | cluster-controller/main.go:991-998 | deletes exactly the listed pods that are not desired |
| `Deploy.DeployedIsUpToDate` | pkg/kube/deploy.go:107-124 | what was deployed is up to date |
| `Deploy.DeployingAgainChangesNothing` | cluster-controller/main.go:968-1000 | deploying the same pods again, built afresh, changes nothing |
| `Deploy.SameObjectsAreRecreated` | pkg/kube/deploy.go:107-124 | deploying the same objects again recreates exactly those that were created the first time and had a map of annotations, which now holds the applied pod, or have two images for one init container name |
| `LinkTunnel.TunnelConn.Read` | link-proxy/tunnel.go:84-116 | returns the next bytes of what was received, keeps the rest, and leaves the rest of the buffer alone |
| `LinkTunnel.ReadAll` | link-proxy/tunnel.go:84-116 | with buffers of any sizes, the bytes read and those pending are the payloads received |
| `LinkTunnel.Copy` | link-proxy/tunnel.go:111 | as much as fits |
| `Tunnel.TurnsStep` | pkg/tunnel/tunnel.go:107-171 | the buffer is always with one of the two goroutines |
| `Tunnel.BytesStep` | pkg/tunnel/tunnel.go:107-212 | what is written and under way is what was read, but for what is in hand |
| `Tunnel.EndsStep` | pkg/tunnel/tunnel.go:173-178 | the end is announced last |
| `Tunnel.WrittenIsPrefix` | pkg/tunnel/tunnel.go:181-212 | what is written at the far end is a prefix of what was read at the near one |
| `Tunnel.EverythingArrives` | pkg/tunnel/tunnel.go:133-212 | if nothing was lost or given up, all of it is written once the end has come through |
| `Tunnel.EndIsAnnounced` | pkg/tunnel/tunnel.go:159-178 | once the sender has returned on a tunnel that works, the end is the last message on its way, or has come through |
| `Tunnel.EndComesThrough` | pkg/tunnel/tunnel.go:133-212 | once the near stream has ended with nothing broken, given up or lost, every schedule writes all that was read and ends, within a bounded number of steps |
| `Tunnel.AnyStreamComesThrough` | pkg/tunnel/tunnel.go:107-212 | whatever the near stream brings, in whatever pieces, some run copies all of it and ends |
| `Tunnel.OtherDirectionEnds` | pkg/tunnel/tunnel.go:133-178 | when the other direction is finished, a sender that waits for a read announces the end |
| `Tunnel.ReaderReturns` | pkg/tunnel/tunnel.go:107-131 | once the sender has returned, so does the reader, after the read it is in |
| `Tunnel.GivesUpForAReason` | pkg/tunnel/tunnel.go:148-178 | what was read is given up only when the other direction is finished or the tunnel broke, and lost only when the tunnel or the far stream broke |
| `Tunnel.BufferIsNotShared` | pkg/tunnel/tunnel.go:107-163 | the buffer is never filled while it is being sent |
| `Tunnel.NobodyIsStuck` | pkg/tunnel/tunnel.go:107-171 | an offered buffer is taken, and a reader left behind returns after its read |

## Left out

- `BindVolumes.SortMasks`: collapseIgnores sorts the caller's slice in place; here the sorted masks are a new list, so the change to the caller's order is not modelled.
- Mounts as records: the loops of NewClient overwrite a local copy of a mount and then append it, so mounts are values here.
- Folder identifiers: hashing is taken to be injective and not modelled; writing the configuration and the text of the ignore file's header are not either.
- Retry limits of optimistic updates, cancelled waits and failing API calls in the middle of CreatePVC: the model's calls go on or end where the code returns an error after a missing object.
- The size, mode and class of persistent volumes.
- `LogWindows.PrintLogs`: does not model when the timer fires, only that it can while something waits; colours and service names are not modelled.
- `Logs.ForwardLogs`: partial lines and lines without a timestamp are not modelled, nor are a tail or an earlier time asked for by the user.
- `Wait.WaitForAll`: the texts of updates and their dropping when the channel is full are not modelled.
- `Boot.SyncHadFinished`: takes the report of the CLI as one bit; that a waiter is only released by that bit is `SyncProtocol.ResolvedMeansSynced`.
- `Notifications.SeenIsCurrent`: events, from which Get takes whether an image is being pulled, are read but not watched, so pull status is outside the claim that no change is lost.
- `VolumeBinds.ComesBackExactly`: in the model a call does not fail between freeing the volume and creating the claim; a volume left free by such a failure could be bound without being released.
- Waiters registered between the draining and the removal of a connection: they are modelled, and nothing is promised to them but that they are never told anything false.
- Runtime containers, service aliases, health probes, host aliases, environment and configuration maps of a pod; the shared volumes list is only relevant through the init containers.
- Init containers that fail and are run again.
- `Deploy.PodStore.DeployCustomerPods`: API errors and concurrent writers are not modelled; deleting waits until the pod is gone.
- Sending EOF when the link proxy's connection is closed, its Write, and the headers of tunnels.
- gRPC, TLS, WebSocket, Kubernetes watches, the Docker registry, DNS tables, feature checks, pull status, certificates, the CLI's commands and the CI scripts.

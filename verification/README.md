# HPK verified

HPK runs Kubernetes pods on a host by way of files, signals and sockets.  This project models the parts of it that
carry the hard promises and proves these promises.  The operating system appears as small abstract state: a file tree,
a process table, a clock, streams of bytes; any call to it may fail.

`dafny verify dfyconfig.toml` checks everything.

- **Volumes** (`VolumeTree`, `PayloadPaths`, `AtomicWriter`, `WriteOutcomes`, `WriterRuns`, `NestedMounts`).  The
  eleven-step projection of a payload into a volume, one recorded state per file-system call.  An observer who follows
  the data link sees the old payload or the new one, never a mix, at every moment and after every failure.
- **Pods** (`Conditions`, `ContainerStatus`, `PodStatus`, `PodLifecycle`, `PodEvents`, `PodRecords`, `PauseProtocol`,
  `ControlPaths`).  hpk-pause writes control files, the kubelet reads them at arbitrary moments.  The phase a pod ends
  in does not depend on the moments, and the phases only move forward, a system error aside.
- **Fast forms** (`LogTail`, `Expansion`, `Poller`).  Reading a log backwards by pages, expanding references with a
  cursor and a checkpoint, and comparing two buffers that take turns, each against its simple specification.
- **Protocols** (`PacketForwarding`, `EventQueue`, `ImagePull`, `ImageName`).  State machines over the steps of all
  goroutines and processes, with what every reachable state satisfies.
- **Termination** (`JobId`, `Termination`).  Printing and parsing of process identifiers, and every course a
  termination can take, with its signals and its times.

Code that works step by step is modelled by methods and classes that change state; each is proved against a function
or a relation, and the promises are lemmas about those.

## What the proofs found

Where a natural claim does not hold of the code, the exact condition under which it does is proved.

- A payload key is checked before it is cleaned, so "./..data" is accepted, and a later write prunes the data link: the
  view is lost although no call fails (`WriterRuns.LoseTheView`).  Which valid keys can do so is
  `PayloadPaths.ValidKeyOwn`; a write keeps the link, and with it atomicity, exactly under the condition of
  `WriterRuns.LinkKeptExactly` (`AtomicWriter.ExposureServes`, `AtomicWriter.LinkLost`).
- Three things are passed over silently, and the write succeeds: a visible name that is taken by a foreign entry, a
  visible name whose check fails for another reason than absence, and a folder of the previous version that cannot be
  listed.  A successful write leaves a settled volume settled exactly if none of them happened
  (`WriterRuns.WriteSettles`); a stale name missed once is never removed by a later write (`WriterRuns.MissedDangles`,
  `WriterRuns.WriteInTurn`).
- The files are compared in no fixed order, and an unreadable one ends the write.  Whether a payload that clashes with
  the previous one is written can therefore depend on the order (`WriteOutcomes.AlwaysSucceedsExactly`,
  `WriteOutcomes.NeverSucceedsExactly`); one that lies beneath a file of the previous one never is, as {a/b} after {a}
  (`WriteOutcomes.BeneathClashes`).
- A retry after a crash at or behind the switch repairs nothing (`WriterRuns.RetryRepairsNothing`), and a temporary
  link left by a crash before it makes every later write fail (`AtomicWriter.Write`).
- A pod saved before its container statuses exist is failed by the first observation
  (`PodLifecycle.EarlySavedPodFails`).  The lifecycle results assume one status per container with distinct names.
- The script on the host writes the system-error file whenever hpk-pause ends with an error, at any time, and the
  event does not look at the phase: a pod that has Succeeded becomes Failed (`PauseProtocol.SuccessUndone`).  Nothing
  else moves a terminal pod (`PauseProtocol.TerminalPhases`).
- A system error withdraws PodReady but not ContainersReady, which stays true exactly if the pod was running
  (`PauseProtocol.ContainersReadyExactly`).
- The finishing time is rewritten at each sync, so the reconciler announces an unchanged pod again exactly if a
  container has exited (`PodEvents.SecondReconcile`).
- An address that is the only news of a pass of the reconciler is not stored (`PodRecords.JointAddress`,
  `PodEvents.PassIsStep`).
- When the write of an exit code is lost, a pod past its init containers waits for it for ever, unless a recorded
  failure or a system error ends it (`PauseProtocol.JointOutcomeWithLosses`).
- Expansion re-encodes a byte beyond ASCII that follows an operator (`Expansion.IdentityExactly`).
- The buffers of the poller are swapped after a failed look as well, which loses removals, and, when it was the stat
  call that failed, creations too (`Poller.FailedLookExactly`, `Poller.ReplayedRun`).
- A call of Push without a context can keep the workers from shutting down (`EventQueue.HaltsExactly`,
  `EventQueue.StuckReached`).  The one caller in the repository passes one (internal/provider/provider.go:500), so
  there `EventQueue.ShutdownCompletes` applies.
- No directory is made for mounts beneath a volume mounted at "/" or at ".", and for one mounted at ".." what lies above
  is taken for beneath (`NestedMounts.UnderExactly`).
- Images of a registry with a port share one file whatever their tags (`ImageName.TagsShareExactly`), and so do "a/b"
  and "a_b" (`ImageName.NamesShareExactly`) and "a:b_c" and "a_b:c" (`ImageName.SharedShifted`).
- A container called "pause" is mistaken for the pause process (`ControlPaths.KindExactly`).

## Model

| member | source | states |
|---|---|---|
| `AtomicWriter.Write` | internal/compute/volume/util/atomic_writer.go:130-234 | From every sound volume and for every payload: each recorded state, one per file-system call, shows exactly the old payload up to one switch point, and exactly the new one from there on and never a missing directory if the names to be pruned spare the data link, whichever call fails or wherever a crash cuts the history; validation fails exactly when some key is invalid; a successful call either found nothing to do, as far as its walk came, and changed nothing, or published the payload, with every entry of the directory accounted for, but for the names that unreported failures made it miss, or, when the link is pruned, leaves nothing to see; when no call fails of itself it misses nothing and succeeds exactly if the comparison, in the order taken, the layout and the names to be pruned allow it; entries of no version are never touched; a temporary link left behind makes every call that has work to do fail |
| `AtomicWriter.Replace` | internal/compute/volume/util/atomic_writer.go:175-234 | Steps 5 to 11, with the stale paths the walk came to: the same atomicity from the fresh directory on, failure exactly at or after the switch according to the failing step, and, when no call fails of itself, success exactly if the payload can be laid out and the stale names removed |
| `AtomicWriter.StageAndSwitch` | internal/compute/volume/util/atomic_writer.go:175-208 | Steps 5 to 8: the rename is the last call and the only one an observer notices; on failure nothing but the timestamp directory and the temporary link differ |
| `AtomicWriter.StageNewVersion` | internal/compute/volume/util/atomic_writer.go:175-193 | Steps 5 to 7: the new directory holds exactly the payload and its folders before any link leads to it |
| `AtomicWriter.WritePayloadToDir` | internal/compute/volume/util/atomic_writer.go:387-422 | Every file of the payload with its bytes, every ancestor as a folder and nothing else; a success implies that no file of the payload lies beneath another |
| `AtomicWriter.AddFile` | internal/compute/volume/util/atomic_writer.go:387-422 | Writing one more file, after making its folders, extends an exactly laid out directory by exactly that file and its ancestors |
| `AtomicWriter.Expose` | internal/compute/volume/util/atomic_writer.go:210-231 | Steps 9 to 11 touch only missing visible names, names to be pruned and the previous directory, and on success leave the links made, but for the names whose checks failed without being reported, and the stale ones gone |
| `AtomicWriter.ExposureServes` | internal/compute/volume/util/atomic_writer.go:210-231 | When the names to be pruned spare the data link, every state after the switch serves exactly the new payload, however many links are made or removed |
| `AtomicWriter.LinkLost` | internal/compute/volume/util/atomic_writer.go:210-231 | When they do not, the state in which all steps are done shows nothing at all |
| `AtomicWriter.ForeignKept` | internal/compute/volume/util/atomic_writer.go:210-231 | No step touches an entry that is neither one of the writer's own nor a visible name of the previous version |
| `AtomicWriter.BeforeSwitchShows` | internal/compute/volume/util/atomic_writer.go:175-208 | No state before the switch shows anything but the old payload, even when the fresh directory or the temporary link is half made or half removed |
| `AtomicWriter.CreateUserVisibleFiles` | internal/compute/volume/util/atomic_writer.go:434-454 | Exactly the missing top-level names may be touched, and on success all of them are links through the data link, except those whose every check failed for another reason than absence, which are passed over |
| `AtomicWriter.RemoveUserVisiblePaths` | internal/compute/volume/util/atomic_writer.go:458-473 | Only names of one part are touched, and on success all of them are gone |
| `AtomicWriter.PathsToRemove` | internal/compute/volume/util/atomic_writer.go:326-363 | The walk, the loop that collects all ancestors and the set difference yield exactly the old paths outside the ancestor closure of the new payload, except those in folders that could not be listed: the visitor ignores the error |
| `AtomicWriter.WithAncestors` | internal/compute/volume/util/atomic_writer.go:347-356 | The inner loop over parents visits exactly the non-empty prefixes of each path |
| `AtomicWriter.ShouldWritePayload` | internal/compute/volume/util/atomic_writer.go:293-321 | In the order the map gives its keys, the first file that is not the same decides; the early exit decides rightly whether every file of the payload has its bytes |
| `AtomicWriter.CompareWithCurrent` | internal/compute/volume/util/atomic_writer.go:153-173 | The write is skipped exactly when the current directory already holds the payload and no stale path that the walk came to |
| `AtomicWriter.SkippedWhenUpToDate` | internal/compute/volume/util/atomic_writer.go:153-173 | No differing file and nothing to remove, together, mean exactly that the current directory looks up to date to the walk |
| `AtomicWriter.ValidatePayload` | internal/compute/volume/util/atomic_writer.go:237-248 | Accepts exactly when every key is valid, and then maps each cleaned key to content of a key that cleans to it |
| `AtomicWriter.PublishedAll` | internal/compute/volume/util/atomic_writer.go:195-231 | What the steps leave, each on its own, amounts to the published volume, with what was missed: every entry of the directory is accounted for |
| `AtomicWriter.Volume.RemoveAll` | internal/compute/volume/util/atomic_writer.go:191-231 | However far a recursive removal gets, only that one entry changes |
| `WriterRuns.WriteSettles` | internal/compute/volume/util/atomic_writer.go:130-234 | After a successful write on a settled volume it is settled on the payload exactly if the payload was there, or its difference was not overlooked, no visible name was blocked, every absent one got its link and no stale one was missed; and it is unchanged exactly if the payload was there or overlooked |
| `WriterRuns.MissedDangles` | internal/compute/volume/util/atomic_writer.go:326-340 | A stale visible name that an unreported failure of the walk hides stays as a link that leads nowhere and is foreign to every later write |
| `WriterRuns.RunSettles` | internal/compute/volume/util/atomic_writer.go:130-234 | Over any sequence of successful writes to a fresh volume: after each the data link leads to exactly its payload, the visible links are exactly its top-level names and one timestamp directory remains, if and only if each went well; what blocks a name was there before the first write |
| `WriterRuns.RunView` | internal/compute/volume/util/atomic_writer.go:130-234 | Following the visible links after such a sequence in which all went well reads exactly the last payload: its bytes for its paths, nothing for others |
| `WriterRuns.WriteAllSettles` | internal/compute/volume/util/atomic_writer.go:130-234 | A run of calls on raw payloads that all succeed ends settled on the last one, if nothing was missed and no name was blocked in the fresh volume; on a volume where no call fails of itself only blocked names matter |
| `WriterRuns.RetryRepairsNothing` | internal/compute/volume/util/atomic_writer.go:159-173 | After a crash anywhere from the switch on a further write of the same payload changes nothing, and all files can be read exactly if every top-level name has its link |
| `WriterRuns.WriteInTurn` | internal/compute/volume/util/atomic_writer.go:130-234 | Over any sequence of writes, any of which may fail at any call and leave its remains behind: at every moment an observer sees the first view or one of the payloads whole, and never an earlier one after a later one; an entry of no version, as a missed link, is never removed while no payload uses its name |
| `WriterRuns.SuccessReads` | internal/compute/volume/util/atomic_writer.go:195-231 | Whatever failed writes have left behind, a write that succeeds makes a file of its payload readable with its bytes exactly if its visible name got its link |
| `WriteOutcomes.AlwaysSucceedsExactly` | internal/compute/volume/util/atomic_writer.go:293-321 | When no call fails of itself, a settled volume lets a payload be written in whatever order the keys are compared exactly if none of its keys is a folder of another or clashes with what is there, or it is there already |
| `WriteOutcomes.NeverSucceedsExactly` | internal/compute/volume/util/atomic_writer.go:293-321 | In no order exactly if it cannot be laid out, or some file clashes with what is there and every other one is there with the same bytes; otherwise the order decides |
| `WriteOutcomes.BeneathClashes` | internal/compute/volume/util/atomic_writer.go:293-321 | A payload whose every key lies beneath a file of the previous one is never written |
| `WriterRuns.LinkKeptExactly` | internal/compute/volume/util/atomic_writer.go:210-223 | A write spares the data link exactly if the previous version could not be listed, or it does not give up a key named like the link and, when it is empty, the previous payload has no key named like the new version |
| `WriterRuns.LoseTheView` | internal/compute/volume/util/atomic_writer.go:258-290 | On a settled volume and with no call failing, two successful writes of valid payloads, the first with the key "./..data", leave an observer with nothing to see |
| `VolumeTree.PublishedSettles` | internal/compute/volume/util/atomic_writer.go:130-234 | Publishing settles a volume exactly if no visible name of the payload was blocked, every absent one got its link, and no stale one was missed |
| `VolumeTree.SettledSound` | internal/compute/volume/util/atomic_writer.go:130-234 | A volume settled by one write is one the next write can start from |
| `VolumeTree.UpToDateExactly` | internal/compute/volume/util/atomic_writer.go:293-321 | On a settled volume the comparison, if nothing is missed, finds nothing to do exactly for the payload that is already there |
| `VolumeTree.SkippedExactly` | internal/compute/volume/util/atomic_writer.go:153-173 | In general exactly for that one or for a smaller one whose missing files are in folders the walk could not list |
| `VolumeTree.LaidOutReadsBack` | internal/compute/volume/util/atomic_writer.go:387-422 | Reading back a laid out directory gives exactly the payload it was laid out from |
| `VolumeTree.FrameProjected` | internal/compute/volume/util/atomic_writer.go:195-208 | Changes away from the data link and its target change nothing an observer sees |
| `VolumeTree.ThroughData` | internal/compute/volume/util/atomic_writer.go:434-454 | Resolving a path through its visible link and the data link ends at the file of the current directory |
| `PayloadPaths.ValidKeyReserved` | internal/compute/volume/util/atomic_writer.go:258-290 | A valid key is cleaned to a name with a leading ".." exactly if it hides it behind "./", because the check looks at the key before it is cleaned |
| `PayloadPaths.ValidKeyOwn` | internal/compute/volume/util/atomic_writer.go:258-290 | A valid key is cleaned to one of the names the writer itself uses exactly if it hides such a name behind "./" |
| `PayloadPaths.KeptStripped` | internal/compute/volume/util/atomic_writer.go:237-248 | Cleaning keeps what is left once leading "./" and "/" are taken away |
| `PayloadPaths.CleanJoined` | internal/compute/volume/util/atomic_writer.go:237-248 | The text of any path whose parts are plain is cleaned to that path: no part is lost or moved |
| `PayloadPaths.KeptInTurn` | internal/compute/volume/util/atomic_writer.go:237-248 | Of two texts with a slash between them cleaning keeps what it keeps of the one and then what it keeps of the other; of a single part nothing if it is empty or a dot, and else the part |
| `PayloadPaths.CleanPlain` | internal/compute/volume/util/atomic_writer.go:237-290 | Conversely the cleaned path of a valid key has plain parts only, unless it is the dot alone, and none of them leads up or holds a slash |
| `PayloadPaths.ValidJoined` | internal/compute/volume/util/atomic_writer.go:258-290 | Which texts are accepted, told by their parts: none leads up or is longer than 255 characters, the first does not begin with two dots, the text does not begin with a slash and has at most 4096 characters |
| `NestedMounts.GetNestedMountpoints` | internal/compute/volume/util/nested_volumes.go:29-95 | Fails exactly if some container mounts the volume outside its file system; otherwise a directory is listed exactly if some mount needs it and none lies in between |
| `NestedMounts.CheckContainer` | internal/compute/volume/util/nested_volumes.go:31-82 | The same for one container, by way of its sorted list of mounts |
| `NestedMounts.NestedUnder` | internal/compute/volume/util/nested_volumes.go:57-80 | The scan of the sorted list with its remembered prefixes chooses exactly the mounts beneath the base that lie beneath no other such mount |
| `NestedMounts.SkippedExactly` | internal/compute/volume/util/nested_volumes.go:67-76 | A mount is beneath an already chosen one exactly if it is beneath any mount inside the volume; this is where the sorting is needed |
| `NestedMounts.ParentsFirst` | internal/compute/volume/util/nested_volumes.go:41-41 | In lexicographic order a directory precedes everything beneath it |
| `NestedMounts.TopsCover` | internal/compute/volume/util/nested_volumes.go:29-95 | The chosen directories form an antichain, and every mount beneath the volume is chosen or lies beneath a chosen one |
| `NestedMounts.UnderExactly` | internal/compute/volume/util/nested_volumes.go:44-65 | The prefix test agrees with lying beneath by components, for every other mount, exactly if the base is neither the root directory nor the current one nor a path that only leads up; of the last kind the check before lets ".." pass |
| `Conditions.ConditionList.SetPodStatusCondition` | pkg/crdtools/pod-conditions.go:29-53 | The condition found is edited in place, else the new one is appended: the list becomes the specified one |
| `Conditions.ConditionList.FindStatusCondition` | pkg/crdtools/pod-conditions.go:56-64 | The index of the first condition of the type |
| `Conditions.SetLookup` | pkg/crdtools/pod-conditions.go:29-64 | Types stay unique, the set type is found with the merged value, all others are found unchanged |
| `Conditions.SetExactly` | pkg/crdtools/pod-conditions.go:29-53 | A condition that is set shows the given status and reason; its transition time stays exactly if it was there with that status, and otherwise becomes the one given, or now if none is |
| `PodEvents.ObserveKeepsTimes` | pkg/crdtools/pod-conditions.go:33-49 | No observation of a pod moves the transition time of a condition whose status stays the same |
| `PodEvents.ErrorKeepsTimes` | internal/compute/errors.go:39-52 | Nor does recording an error |
| `PodEvents.SysErrorKeepsContainersReady` | internal/compute/errors.go:39-52 | Recording a system error fails any pod and withdraws PodReady, and after it ContainersReady is recorded true exactly if it was before |
| `ContainerStatus.HandleStatus` | internal/compute/podhandler/container.go:195-286 | The branches on exit-code and job-id files compute the specified status |
| `ContainerStatus.HandledClass` | internal/compute/podhandler/container.go:195-286 | After a sync exactly one of waiting, running and terminated is set, and which one, with which exit code class, depends on the files alone |
| `ContainerStatus.ToInt32Exactly` | internal/compute/podhandler/container.go:240-240 | The stored exit code is the one read exactly if that fits 32 bits, and else differs from it by a multiple of 2^32 |
| `ContainerStatus.HandledTwice` | internal/compute/podhandler/container.go:195-286 | A second sync with the same files changes nothing but the finishing time of an exited container |
| `ContainerStatus.SyncedShape` | internal/compute/podhandler/container.go:195-294 | Over any sequence of syncs the state has one form and the class its files give it |
| `ContainerStatus.SyncedExactly` | internal/compute/podhandler/container.go:195-294 | Every field of the status after any sequence of syncs with growing files, told without the syncs in between: identity, start and readiness come from the first sync that saw the container run, exit code, restart and last state from the first that saw it ended, and only the finishing time from the latest |
| `ContainerStatus.RestartsOnce` | internal/compute/podhandler/container.go:229-234 | Over any sequence of syncs with growing files the restart count grows by one exactly if the container has exited with a non-zero code, and else not at all |
| `ContainerStatus.StartSurvives` | internal/compute/podhandler/container.go:221-263 | A start time once observed is kept through every later sync and through termination |
| `ContainerStatus.NoStartUnseen` | internal/compute/podhandler/container.go:221-226 | A container that was never seen running has no start time, however often it is synced |
| `PodStatus.ManagedPod.UpdateStatusFromRuntime` | internal/compute/podhandler/podStatus.go:36-219 | The imperative transition sequence over the pod and its condition list computes the specified observation; what that leaves of address, reason and conditions is told by the rows on `PodRecords`, without the observation |
| `PodStatus.ManagedPod.ChooseTransition` | internal/compute/podhandler/podStatus.go:112-216 | The conditions tried in turn over the four classes select the specified transition |
| `PodStatus.ManagedPod.CheckInits` | internal/compute/podhandler/podStatus.go:76-89 | The loop over init containers gives the verdict of the first one that has not succeeded |
| `PodStatus.ManagedPod.SetTerminationConditions` | internal/compute/podhandler/podStatus.go:221-239 | Readiness of the pod and of its containers is withdrawn |
| `PodStatus.ClassifyAll` | internal/compute/podhandler/podStatus.go:408-424 | The four maps hold exactly the names of their classes |
| `PodLifecycle.ClassesPartition` | internal/compute/podhandler/podStatus.go:408-424 | With distinct names the four class sizes add up to the number of containers |
| `PodLifecycle.ChooseCounts` | internal/compute/podhandler/podStatus.go:112-218 | With one status per container the counting conditions select the phase the classes call for, and the fall-through is never reached |
| `PodLifecycle.InvalidTransitionExactly` | internal/compute/podhandler/podStatus.go:182-216 | The fall-through is reached exactly if all statuses run or succeeded but are not as many as the containers |
| `PodLifecycle.NeverInvalid` | internal/compute/podhandler/podStatus.go:129-218 | Over any sequence of observations, of any files, the reason fits the phase; the fall-through and its reason never occur |
| `PodLifecycle.EarlySavedPodFails` | internal/compute/podhandler/podhandler.go:431-436 | A pod saved before its statuses exist is failed by its first observation |
| `PodLifecycle.VerdictMoves` | internal/compute/podhandler/podStatus.go:76-218 | As files appear the verdict on them never leaves a terminal phase and never goes from Running back to Pending |
| `PodLifecycle.ObserveTracks` | internal/compute/podhandler/podStatus.go:36-219 | One more observation with more files takes the pod from the verdict on the old files to the verdict on the new |
| `PodLifecycle.PhaseConfluence` | internal/compute/podhandler/podStatus.go:36-219 | Whatever the number and the moments of the observations, the pod ends in the phase, with the unique condition types and with PodReady true exactly when Running, that the last files call for |
| `PodLifecycle.PhaseOrder` | internal/compute/podhandler/podStatus.go:76-218 | Over any sequence of observations: terminal phases are kept, Running is only left for a terminal phase, and Running or Succeeded implies that every init container has exited with zero |
| `PodLifecycle.ConcludeConditions` | internal/compute/podhandler/podStatus.go:129-239 | After the transition PodReady and ContainersReady are true exactly if the phase is Running, and the condition types are unique |
| `PodRecords.AddressExactly` | internal/compute/podhandler/podStatus.go:42-63 | Over any run of observations of any files: the address is the one the pod had, or else that of the first look which found one, provided that the pod was not in a terminal phase by then |
| `PodRecords.RefusedAddress` | internal/compute/podhandler/podStatus.go:42-53 | A pod refused on sight is never given an address |
| `PodRecords.JointAddress` | cmd/hpk-pause/main.go:309-331 | In every joint run a supported pod without an address is given the one hpk-pause announced, by the first look that is stored, finds it and is not made at a terminal pod; a look that finds only the address new and nothing to save does not store it |
| `PodRecords.InitializedExactly` | internal/compute/podhandler/podStatus.go:75-108 | Over any run of observations of growing files Initialized is recorded true exactly once every init container has exited with zero, and carries the time of the first look that found them so; before that it is left alone |
| `PodRecords.ReasonExactly` | internal/compute/podhandler/podStatus.go:36-219 | After any such run the reason is told by the last files alone: which kind of failure it was, completed, running or queued, and the first reason while init containers work |
| `PodRecords.SysErrorReason` | internal/compute/events/listener.go:160-211 | Once a system-error event was handled in a joint run, that is the reason, whatever it was before |
| `PodRecords.InitsByFiles` | internal/compute/podhandler/podStatus.go:75-90 | The first init container that has not exited with zero decides: the pod fails if it has exited, and waits if it has not |
| `PodRecords.MainsByFiles` | internal/compute/podhandler/podStatus.go:129-199 | The phase the main containers call for, told by their files: failed if one exited with a non-zero code, succeeded if all exited, running if all were started |
| `PodRecords.ReadySince` | internal/compute/podhandler/podStatus.go:147-181 | While a pod runs PodReady and ContainersReady carry the time of the look that first found it running, with their reasons, however often it is looked at since |
| `PodRecords.ReadyUntil` | internal/compute/podhandler/podStatus.go:129-239 | Once it has come to its end both are recorded false with the time of the look that found the end, and stay so |
| `PodEvents.Reconcile` | internal/provider/provider.go:542-558 | A pod is saved and announced exactly if it is not terminal and its phase or a container status changed |
| `PodEvents.PassIsStep` | internal/provider/provider.go:542-558 | A pass of the reconciler is a step of the joint system: a look that is saved, or one that is not |
| `PodEvents.EventIsStep` | internal/compute/events/listener.go:160-246 | Handling a file event is a step of the joint system too: a system error, a look, or nothing |
| `PodEvents.SecondReconcile` | internal/provider/provider.go:536-561 | After any run of observations of growing files, one more reconciliation with the files last seen saves the pod again exactly if some container has exited |
| `PodEvents.SyncAgain` | internal/compute/podhandler/container.go:195-294 | A second sync of all containers changes nothing exactly if none has exited |
| `PodEvents.UnsetExactly` | internal/compute/podhandler/podStatus.go:42-108 | The phase stays unset exactly while the init containers of a pod not yet accepted are still working |
| `PauseProtocol.ControlDir.ExecuteContainer` | cmd/hpk-pause/main.go:520-677 | For every fate of a container, that is which steps fail and what its process returns: the job id is written exactly if the container was set up and started and the write succeeds; the code written is the status of the process if it was waited for and ended by itself, and else 128; the error is set exactly if a step failed or the status is not zero; nothing else changes |
| `PauseProtocol.ControlDir.HandleInitContainers` | cmd/hpk-pause/main.go:679-686 | Given the fates of the init containers: they are executed in order up to the first that does not go well; those before it have left their job ids and zeros, and the files of all others are as before |
| `PauseProtocol.StepsMatchExecution` | cmd/hpk-pause/main.go:520-677 | For every fate the steps a container takes in the joint run, refused or spawned and ended with the status of its process, write the same files as its execution in one go |
| `PauseProtocol.RunInv` | cmd/hpk-pause/main.go:235-258 | What every step of init containers, parallel main containers, the script on the host, observations saved or not, and system errors keeps, in any interleaving, with the conditions before and after a system error |
| `PauseProtocol.JointOutcome` | cmd/hpk-pause/main.go:520-699 | Confluence: after any interleaving that ends, caught up, when nothing more is executed and no write was lost, the phase is Succeeded exactly if every init and main exit code is zero and no system error was written, and else Failed, however many looks were taken before |
| `PauseProtocol.JointOutcomeWithLosses` | cmd/hpk-pause/main.go:520-699 | With lost writes the phase is still the verdict on the files; the pod waits exactly if no system error was handled, it was not refused, and its init containers are not through or the exit code of a main container is missing while those there are zero |
| `PauseProtocol.UnrecordedWaits` | internal/compute/podhandler/podStatus.go:129-199 | The files of the main containers call for a phase that is not terminal exactly if an exit code is missing and none there is a failure |
| `PauseProtocol.TerminalPhases` | internal/compute/events/listener.go:160-246 | In every joint run a terminal phase is left by system-error events only: the phase some time later is Failed if one was handled in between, and else the same |
| `PauseProtocol.SuccessUndone` | internal/compute/podhandler/templates.go:102-112 | Every run that has reached Succeeded goes on, when the script on the host reports that hpk-pause failed, to a state in which the pod is Failed |
| `PauseProtocol.SuccessReached` | cmd/hpk-pause/main.go:520-699 | Such runs exist: a single main container that exits with zero |
| `PauseProtocol.ContainersReadyExactly` | internal/compute/errors.go:39-52 | Over every joint run ContainersReady is recorded true exactly if the pod was running when the first system error was handled, or, without one, is running now |
| `PauseProtocol.MainsAfterInits` | cmd/hpk-pause/main.go:679-699 | A main container leaves a file only when every init container has left a zero |
| `LogTail.GetTailLog` | pkg/container/logs.go:47-114 | For every file, page size and tail: when no read fails, exactly the last non-empty lines of the whole file, in order; when the read of some number fails, exactly the last of the lines that were complete by then, and they still are the end of the whole answer |
| `LogTail.ReverseReader.Read` | pkg/container/logs.go:156-172 | The pages are read from the last boundary backwards, each exactly once |
| `LogTail.Consume` | pkg/container/logs.go:86-101 | The inner loop collects the last lines of a page in front of those already found |
| `LogTail.LinesInTurn` | pkg/container/logs.go:78-101 | The lines of two texts with a line break between them are those of the one and then those of the other; a text without a line break is one line, or none if it is empty |
| `LogTail.LastExactly` | pkg/container/logs.go:86-113 | The last lines are as many as were asked for, or all there are, and stand at the very end |
| `LogTail.ReadPage` | pkg/container/logs.go:78-82 | Splitting a page together with the line carried over gives the same lines as splitting the text from there to the end |
| `LogTail.SeenAnswers` | pkg/container/logs.go:97-105 | Once enough non-empty lines were seen the rest of the file cannot matter |
| `LogTail.EnoughRead` | pkg/container/logs.go:86-105 | Nor can a read that would have failed later on |
| `LogTail.LastBoundary` | pkg/container/logs.go:126-152 | The first offset is the last page boundary, the end of the file itself when the size is a multiple of the page |
| `Expansion.Expand` | pkg/expansion/expand.go:38-73 | The cursor and checkpoint loop equals the one-pass specification for every text and mapping, and asks for exactly the names referred to, in order |
| `Expansion.TryReadVariableName` | pkg/expansion/expand.go:81-102 | What is read behind an operator is the token that begins there, and its length |
| `Expansion.TokenRaw` | pkg/expansion/expand.go:38-102 | The token at a position and the rest of the text make up the text: no byte is skipped or read twice |
| `Expansion.ExpandEscape` | pkg/expansion/expand.go:38-102 | Expansion undoes the doubling of every operator, whatever the mapping |
| `Expansion.ExpandReference` | pkg/expansion/expand.go:38-102 | Behind a text without operators a reference is replaced by what the mapping gives for its name, the text in front is kept, and expansion and the list of names asked for go on behind it |
| `Expansion.ExpandPair` | pkg/expansion/expand.go:38-102 | An operator before another byte: doubled it stands for itself, before an opener that is never closed and before other bytes it is kept with what follows; no name is asked for |
| `Expansion.ExpandAlone` | pkg/expansion/expand.go:38-73 | An operator at the end of a text is left alone |
| `Expansion.IdentityExactly` | pkg/expansion/expand.go:38-102 | With no name known expansion is the identity exactly on texts in which the scan meets neither a doubled operator nor an operator before a byte beyond ASCII |
| `Expansion.IdentityOnPlain` | pkg/expansion/expand.go:38-102 | In particular on ASCII texts without two operators in a row |
| `Expansion.UnknownNames` | pkg/expansion/expand.go:22-33 | References to names no context knows are written back as they stand |
| `Expansion.EnvVarsToMap` | pkg/container/helpers.go:28-35 | The last variable of a name wins |
| `Expansion.LastValueExactly` | pkg/container/helpers.go:28-35 | If the variables contain the name, with no other of that name behind it, its value is the one found |
| `Expansion.FirstContext` | pkg/expansion/expand.go:22-33 | The first context that knows a name gives its value |
| `Expansion.ExpandContainerCommandOnlyStatic` | pkg/container/helpers.go:40-48 | Every part of a command is expanded with the last values of the variables |
| `Expansion.CommandReference` | pkg/container/helpers.go:40-48 | In a part of a command a reference to a variable becomes its last value |
| `Expansion.CommandUnknown` | pkg/container/helpers.go:40-48 | A reference to a name no variable has stays as it is written |
| `Expansion.ExpandContainerVolumeMounts` | pkg/container/helpers.go:51-67 | The expansion of a mount is refused exactly if some name it refers to is missing or empty, and exactly those names are reported |
| `Expansion.MountReference` | pkg/container/helpers.go:51-67 | In a mount that is not refused a reference becomes the last value of its variable |
| `Poller.Recording.Record` | pkg/filenotify/poller.go:192-232 | A recording is cleared in place and filled anew, and holds what the look gave even when it failed |
| `Poller.LookExactly` | pkg/filenotify/poller.go:192-232 | What a look leaves: the stat result unless there was none, whatever happened after it, and of a directory that could be listed exactly the names listed, each with its own information |
| `Poller.EntryEvents` | pkg/filenotify/poller.go:279-296 | In whatever order the names come, each is reported at most once and with exactly the difference of its two entries |
| `Poller.EntryTold` | pkg/filenotify/poller.go:256-322 | What a good poll says of an entry, by its two stat results: created, removed, or for plain files Chmod exactly if the mode differs, and Write exactly if it does not and time or size does |
| `Poller.ItemTold` | pkg/filenotify/poller.go:256-322 | The same for the watched path itself; when it is reported nothing else is |
| `Poller.ItemToWatch.CheckForChanges` | pkg/filenotify/poller.go:256-299 | The left buffer is untouched, the right one holds the new look, and the events are exactly their difference |
| `Poller.ItemToWatch.Poll` | pkg/filenotify/poller.go:157-170 | After the swap the left buffer holds the new look, failed or not, and the buffers stay apart |
| `Poller.ItemToWatch.Watch` | pkg/filenotify/poller.go:144-173 | Over any number of rounds the two buffers that take turns send what a run over snapshots nobody overwrites would send |
| `Poller.ReplayedPoll` | pkg/filenotify/poller.go:256-322 | From one good look to the next the events turn the old names into the new ones exactly if the path was a directory before or now has no entries |
| `Poller.ReplayedRun` | pkg/filenotify/poller.go:144-173 | Whatever the path turns into and whichever looks fail, in listing or in the stat call: the names replayed over any run are the latest ones without those missed and with those stale, both told from the looks alone; they are right exactly if there are neither |
| `Poller.NothingStale` | pkg/filenotify/poller.go:144-173 | If no look fails no name is stale, and if the path is a directory all along none is missed |
| `Poller.FailedLookExactly` | pkg/filenotify/poller.go:157-164 | After a failed listing the listener is right again exactly if no name has gone since the listing before it; after a failed stat call exactly if the names are the same |
| `PacketForwarding.EveryConnection` | internal/netutil/copy.go:50-106 | Across any number of sessions, what was put on a connection is whole frames of an in-order selection of the packets read and at most one torn frame; whatever part of it arrives, the receiver delivers a prefix of that selection and refuses nothing as too large |
| `PacketForwarding.WireExactly` | internal/netutil/copy.go:50-72 | Over any run what was put on a connection is exactly the frames of the packets written to it whole, in that order, and then one torn frame at most |
| `PacketForwarding.ActiveExactly` | internal/netutil/copy.go:22-46 | Over any run a connection is the active one exactly from when it was set until another one is or it is itself cleared |
| `PacketForwarding.DroppedExactly` | internal/netutil/copy.go:59-63 | A packet is dropped exactly if no connection is active when the forwarder asks |
| `PacketForwarding.SentWhileActive` | internal/netutil/copy.go:53-69 | What is sent to a connection is the packet that was in hand when it was found active |
| `PacketForwarding.NothingAfterTorn` | internal/netutil/copy.go:66-69 | Once a write failed on a connection or it was closed, nothing is added to it |
| `PacketForwarding.NothingAfterTapFails` | internal/netutil/copy.go:53-57 | Once reading the device has failed nothing more is read, or put on any connection |
| `PacketForwarding.DecodePrefix` | internal/netutil/copy.go:81-106 | However far a stream of frames has arrived, decoding delivers a prefix of its packets, and all of them once it has arrived whole |
| `PacketForwarding.DecodeFrame` | internal/netutil/copy.go:65-98 | Decoding undoes framing, with anything behind it |
| `PacketForwarding.FrameExactly` | internal/netutil/copy.go:65-66 | A frame is the length of the packet in four bytes, the most significant one first, and then the packet |
| `PacketForwarding.TooLargeExactly` | internal/netutil/copy.go:83-93 | A connection that yields no packet ends as too large exactly if its first four bytes say more than 65536 |
| `PacketForwarding.DecodeTorn` | internal/netutil/copy.go:86-98 | A torn frame yields no packet and is not taken for one that is too large |
| `PacketForwarding.CopyFromSocketToTap` | internal/netutil/copy.go:81-106 | For a device that refuses the packet behind the first so many, or none: the loop over its two reused buffers writes all packets the stream decodes to and ends for the reason the stream does, or writes exactly those in front of the refused one |
| `PacketForwarding.ReadPacket` | internal/netutil/copy.go:86-98 | One packet by way of the two buffers is one step of decoding |
| `PacketForwarding.Prepare` | internal/netutil/copy.go:50-64 | A packet is dropped if no session is active, and else stands framed at the start of the buffer |
| `PacketForwarding.ActiveConnHolder.Clear` | internal/netutil/copy.go:40-46 | A session that is over cannot take away the connection of its successor |
| `PacketForwarding.HandleSession` | cmd/hpk-net-daemon/main.go:202-236 | A session delivers exactly that, and leaves no active connection behind |
| `PacketForwarding.StepKeeps` | cmd/hpk-net-daemon/main.go:113-134 | Every step of the forwarder, of sessions and of shutdown keeps what is said about each connection |
| `EventQueue.AcceptedInOrder` | internal/compute/events/listener.go:65-128 | In every reachable state the events accepted are those taken followed by those queued, in order, and the queue is within its bound |
| `EventQueue.NothingDropped` | internal/compute/events/listener.go:65-128 | As long as nothing is cancelled no worker leaves and no event is dropped: each is accepted exactly as often as there are calls with it that are past the queue |
| `EventQueue.NothingAfterFinished` | internal/compute/events/listener.go:65-117 | Once the flag is set nothing more is accepted |
| `EventQueue.RunInv` | internal/compute/events/listener.go:65-128 | Readers and the one writer exclude each other, and no call is in the select statement once the queue is finished |
| `EventQueue.HaltsExactly` | internal/compute/events/listener.go:65-128 | After cancellation no step is possible exactly if all calls and workers have returned, or a call without a context is stuck at a full queue |
| `EventQueue.StuckReached` | internal/compute/events/listener.go:77-87 | The stuck state is reached from the start: two calls without a context, a queue for one event and one worker |
| `EventQueue.ShutdownCompletes` | internal/compute/events/listener.go:65-128 | After cancellation and without further calls a run has a bounded number of steps, and when every call has the context it can stop only with all calls and workers returned |
| `EventQueue.RankDrops` | internal/compute/events/listener.go:65-128 | Every step other than a cancellation or a new call makes the remaining work smaller |
| `ImagePull.PullIsSafe` | internal/compute/image/pull.go:75-120 | For any number of calls, processes, failures and crashes: the image, when there, is a finished download; a process never downloads it twice at a time; and if nobody deletes it a process pulls it at most once and whoever reported it still has it |
| `ImagePull.SuccessKept` | internal/compute/image/pull.go:82-90 | The second look under the lock is what keeps a process from pulling again |
| `ImagePull.ReadyKept` | internal/compute/image/pull.go:92-115 | What is about to be renamed is finished, whatever other processes do to their temporary files |
| `ImagePull.ReportedExactly` | internal/compute/image/pull.go:75-120 | Over any run a call that lives reports that it found the image exactly if one of its two looks did, that it pulled it exactly if it renamed its download, and a failure exactly if its download or the rename failed |
| `ImagePull.ImageDir.Pull` | internal/compute/image/pull.go:75-120 | An undisturbed call takes the protocol steps one after the other: it changes nothing if the image is there, pulls it exactly if download and rename succeed, and else fails and leaves at most its own temporary file, exactly if that cannot be removed |
| `ImageName.InDirectory` | internal/compute/image/pull.go:241-271 | Whatever the reference, the file lies directly in the image directory |
| `ImageName.TagsShareExactly` | internal/compute/image/pull.go:258-264 | Images that differ only in their tags share a file exactly if the reference has a colon of its own, as with a port, or the tags clean to the same; for tags of allowed characters: or they are the same |
| `ImageName.NamesShareExactly` | internal/compute/image/pull.go:258-270 | Images with the same tag share a file exactly if their names clean to the same |
| `ImageName.SharedExactly` | internal/compute/image/pull.go:241-271 | Any two references share a file exactly if, cleaned, they agree in the text before the first colon and in what comes behind, or differ only in how much of the latter, from one underscore to another, stands in front |
| `ImageName.SharedShifted` | internal/compute/image/pull.go:258-270 | Such pairs exist even when nothing has to be cleaned, as "a:b_c" and "a_b:c" |
| `ImageName.SharedEvenly` | internal/compute/image/pull.go:241-271 | With the same digest and as many underscores in the cleaned tags, exactly if both the texts before the first colon and the tags clean to the same |
| `ImageName.CleanedFixed` | internal/compute/image/pull.go:246-268 | Cleaning changes a text exactly if it holds a character that is not allowed |
| `ImageName.CleanedRun` | internal/compute/image/pull.go:246-268 | A run of characters that are not allowed becomes a single underscore, whatever follows it |
| `ImageName.CleanedConcat` | internal/compute/image/pull.go:246-268 | Behind a character that is allowed cleaning starts afresh, so it works piece by piece |
| `ImageName.FileExactly` | internal/compute/image/pull.go:241-271 | The file of a reference written with a name, and perhaps a tag and a digest: the cleaned parts with underscores between them, "latest" for a missing tag, nothing for a missing digest |
| `JobId.FormatParses` | internal/compute/runtime/idtype.go:62-100 | Parsing undoes printing for every positive process number and every start time |
| `JobId.PaddedParses` | internal/compute/runtime/idtype.go:71-100 | It does so with any white space around it and behind the prefix, and with or without the prefix |
| `JobId.ParsesExactly` | internal/compute/runtime/idtype.go:71-100 | And nothing else is parsed: bare of space and prefix an identifier is one positive number, with or without a plus sign, or such a number, a colon and a number, each within its 64 bits |
| `JobId.NormalFormExact` | internal/compute/podhandler/podhandler.go:116-125 | The normal form parses to the same process, and two spellings have the same normal form exactly if they name the same process |
| `JobId.ResolveSecondaryContainerPIDs` | internal/compute/podhandler/podhandler.go:194-219 | The two passes with the shared seen map collect the specified list |
| `JobId.FreshExactly` | internal/compute/podhandler/podhandler.go:194-219 | The list has exactly the parsable identifiers other than the primary one, none twice |
| `JobId.FreshInOrder` | internal/compute/podhandler/podhandler.go:203-218 | In the order of the containers |
| `JobId.ResolveProcessPID` | internal/compute/podhandler/podhandler.go:127-192 | The first parsable identifier in the order pause, containers, init containers, wrapper |
| `Termination.Host.KillPodProcessesWithTimeout` | internal/compute/runtime/cancel.go:148-242 | Every completed call logs exactly one of the possible courses, the one that the replies to its signals call for, returns the outcome of that course and ends at its time |
| `Termination.Host.AwaitExit` | internal/compute/runtime/cancel.go:195-241 | The polling loop with its two intervals stops at the first dead poll or the first poll past the deadline |
| `Termination.Host.SweepSecondaryPIDs` | internal/compute/runtime/cancel.go:123-143 | Every process above 1 and its group get TERM, then after 200 ms KILL, in order |
| `Termination.Host.VerifySecondaries` | internal/compute/runtime/cancel.go:149-160 | Kept are exactly the parsable processes above 1 whose identity matched |
| `Termination.AskedInTurn` | internal/compute/runtime/cancel.go:149-160 | Checked are exactly the secondary processes whose identifier can be parsed and whose number is above 1, in the order given |
| `Termination.SendsExactly` | internal/compute/runtime/cancel.go:123-143 | A signal to many goes to each process in turn, and to its group right before |
| `Termination.PassedExactly` | internal/compute/runtime/cancel.go:91-112 | Signals may go to exactly those processes for which the process table was missing, or knew them and, if a start time was recorded, told that one |
| `Termination.CourseExactly` | internal/compute/runtime/cancel.go:162-190 | The identity of the primary process is checked first; it is left alone exactly if its identifier cannot be parsed, the table does not know it, or a start time was recorded and the table tells another, and otherwise sent TERM at once |
| `Termination.OutcomeExactly` | internal/compute/runtime/cancel.go:148-242 | Which of the errors is returned, told by the course |
| `Termination.FirstWaitExactly` | internal/compute/runtime/cancel.go:195-212 | The first wait look by look: each finds the process alive no later than the deadline and is followed by a sleep of 50 ms, or 250 ms once a second has passed, and the last look decides the course |
| `Termination.LastWaitExactly` | internal/compute/runtime/cancel.go:230-241 | The wait after KILL look by look, with sleeps of 250 ms; a process is given up exactly when it is seen alive more than 5 s after KILL |
| `Termination.NoSignalUnverified` | internal/compute/runtime/cancel.go:91-242 | Before every signal to a process or group the same call has checked its number, and the table was missing, or knew the process and told the recorded start time if there is one |
| `Termination.KillIsTheLastResort` | internal/compute/runtime/cancel.go:184-217 | The primary process is killed only after TERM and right after a poll that found it alive past the deadline, by at most 250 ms; nothing else before is a signal |
| `Termination.UnreachablePrimarySweeps` | internal/compute/runtime/cancel.go:162-193 | When the primary identifier is empty or unparsable, the identity differs, or TERM fails, every verified secondary process and its group get TERM and 200 ms later KILL |
| `Termination.EscalationReachesAll` | internal/compute/runtime/cancel.go:214-228 | When the primary process is killed, every verified secondary process and its group are killed at the same moment |
| `Termination.EndedExactly` | internal/compute/runtime/cancel.go:198-241 | A call reports success exactly if the last thing it did was to find the primary process dead |
| `Termination.EndsInTime` | internal/compute/runtime/cancel.go:186-242 | Every call ends at most 5.5 s after the time it was given |
| `ControlPaths.ParseBuilt` | internal/compute/endpoint/paths.go:134-166 | Parsing a built control-file path gives back exactly its namespace, pod and file |
| `ControlPaths.OnlySplit` | internal/compute/endpoint/paths.go:143-149 | For names without slashes and white space the pattern matches in one way only, so greedy and lazy groups do not matter |
| `ControlPaths.PlainExactly` | internal/compute/endpoint/paths.go:143-149 | Which names that is about, character by character |
| `ControlPaths.FindMatch` | internal/compute/endpoint/paths.go:143-149 | The preferred match: the longest namespace, then the shortest pod name |
| `ControlPaths.PathsExactly` | internal/compute/endpoint/paths.go:173-289 | Built paths are equal exactly if pod and file are, as long as no container is called "pause" |
| `ControlPaths.NamesExactly` | internal/compute/endpoint/paths.go:248-289 | Two control files of a pod share a name exactly if they are the same, or one is the job id of the pause process and the other that of a container called "pause" |
| `ControlPaths.KindExactly` | internal/compute/events/listener.go:160-211 | An event takes the branch meant for its file exactly unless the file is the job id of a container called "pause" |

## Left out

- File modes and owners of projected files: the comparison of the code looks at contents only, and so does the model.
- Nested directories inside a volume made for other mounts (`MakeNestedMountpoints` itself): foreign entries of the volume
  stand for them.
- Windows branches of the writer.
- AtomicWriter.Replace: like Write it starts from a volume whose data link, if there is one, leads to a timestamp
  directory; every state of a write that keeps the data link is one, so what is excluded is damage from outside, and
  the damage hidden keys have done.
- WriterRuns.RunSettles: is about payloads none of whose keys is cleaned to one of the writer's own names, since
  `WriterRuns.LoseTheView` shows what those can do.
- WriterRuns.WriteInTurn: requires that no key hides one of the writer's own names; `PayloadPaths.ValidKeyOwn` says
  exactly which valid keys do.
- PauseProtocol.JointOutcome: one load, update and save of a pod is one step, one clock reading serves one observation,
  container names are distinct and none is "pause", and small control files are written in one go; UpdatePod, CreatePod
  and DeletePod are not among the steps.
- PauseProtocol.ContainersReadyExactly: starts from a pod that is not recorded as ready yet.
- PodLifecycle.PhaseConfluence: takes control files to be read whenever they are there; one that is there but cannot be
  read counts as missing, so that a container that ended can be seen running again while that lasts.
- The parts of hpk-pause that prepare DNS, environment and Apptainer, the signal forwarding and the grace period: only
  success or failure of the preparation counts.
- PauseProtocol.HostFailure: a signal during the init containers can make hpk-pause end with code 0 right after the main
  containers were started, and then nobody writes a system error (cmd/hpk-pause/main.go:187-206); in the model that is a
  system error that was lost.
- PodRecords.AddressExactly: the list of addresses beside the first one (`PodIPs`) is not kept.
- PodEvents.Reconcile: one pod; the walk over the pod directories and the ownership test are library plumbing.
- LogTail.GetTailLog: the file does not change while it is read; the reading goroutine, which stays blocked when enough
  lines were found, is folded into the loop that receives from it.
- Expansion.Expand: bytes are integers, and the laws hold for all of them; of the conversion of a single byte to text
  the cases up to 255 are the ones meant.
- Poller.ItemToWatch.Watch: takes the finite list of looks a run has taken; timers, the channels of events and errors,
  and adding and removing watches are not modelled.
- PacketForwarding.EveryConnection: a write to a closed connection is taken to fail without effect, and connections
  are told apart by fresh numbers; the redial backoff and the accept loop matter only through the sessions they start.
- EventQueue.AcceptedInOrder: events are numbers, processing always returns, and an unbuffered queue (capacity zero)
  accepts nothing.
- ImagePull.PullIsSafe: is about image names that do not begin with a slash; for those that do, both looks are at that
  path itself (internal/compute/image/pull.go:39-45) and cannot see a finished pull.  Time stamps in temporary names are
  never drawn twice; progress output and the download tool are left to their outcome.
- Termination.EndsInTime: sleeps are exact and other calls take no time; what the process table answers is arbitrary.
- Termination.NoSignalUnverified: says what held when the identity was compared; that a number is not reused between
  then and the signal is not claimed, and the primary process is not checked again before it is killed.
- ControlPaths.PathsExactly: paths are joined from plain components, so path cleaning is the identity.
- NestedMounts.GetNestedMountpoints: mount paths are given as path cleaning leaves them; the result is characterised as a
  set, its order is that of the mounts.
- Kubernetes clients, informers, exec streaming, volume collectors, subpath mounts, network devices, templates,
  statistics and progress bars: library plumbing or foreign programs with no hard property of their own.

# Verification of the Morpheus CSI driver

A Dafny model of a CSI driver whose backend can only *replace a server's whole
volume array*, and proofs about it. Three linked components are modelled.

1. **Resize protocol** (`internal/morpheus/client.go`). Ensure, Expand and
   Delete read a server's array, compute the next one, write all of it back and
   poll. `ResizeOps` says what each operation does when it runs alone;
   `ResizeClient.Client` has the methods in the code's own steps, proved to do
   exactly that from the moment they get the server's mutex; `ResizeProtocol`
   lets any number of threads take these steps in any interleaving, with a lock
   table and per-server locks; `Linearizability` carries the invariant, and
   `ResizeTheorems`, `History` and `Idempotence` state what follows for whole
   runs; `Outcomes` says what each operation asks for and answers without its
   plan. `Moves` is a second machine for the unlocked attach and detach,
   `MoveAlone` is one move by itself, and `Candidates`, `ControllerDelete`,
   `ControllerCreate` and `ControllerExpand` put the controller's calls on top.
2. **Node plugin** (`internal/driver/node.go`). `NodeStaging` models stage,
   unstage, publish and unpublish with a failure possible at every call;
   `NodePlugin.Plugin` has them as methods on mutable state. `BlockDevices`,
   `Discovery` and `Removal` model path cleaning, the mount table text, the
   retrying device search and the removal of a device; `RemovalRefines` connects
   the removal to the node machine.
3. **Sizes, identifiers, codecs**. `Float64`, `Numerals`, `Sizes`, `Wire`,
   `Descriptions`, `RoundTrip` and `VolumeHandle`; `Text` has the Go string
   functions.

`dafny verify dfyconfig.toml` checks everything.

## What the proofs assume

- A PUT replaces the array of one server at once; a failed PUT was applied
  wholly or not at all. A new entry gets an id that was never used before, on
  any server. The name of a new disk is the requested one, trimmed, or one that
  no request of the run asks for. Sizes are kept as sent, and an entry resent as
  it was read is kept (`internal/morpheus/client_test.go:328-353` has a backend
  of this kind).
- A server description names the server that was asked for
  (`internal/morpheus/client.go:502` takes the id from the reply), lists distinct
  non-empty ids and trimmed names; entries without an id are dropped by the
  parser (`internal/morpheus/client.go:722`).
- In the locked protocol only Ensure, Expand and Delete run. Moves take no lock
  and have a machine of their own, in which moves of one volume are serialised
  and ids are unique over all servers.
- The filesystem probe tells the truth. For the recovery theorem: a stored
  staging record can be read, a device name is not reused between retries, and
  the mounted source of an unmounted path is an error.
- Resolving a path gives a cleaned path that resolves to itself; block
  directory entries have plain, distinct names.
- In `ResizeClient`, what other callers do while a call waits for a mutex is
  given as the list of moments they leave behind: they replace no mutex, keep the
  arrays sound and leave the mutex free in the end. Once it has the mutex, a call
  runs without them; the step machine has all interleavings.
- A double outside the int64 range converts to the smallest int64, as on amd64.

## Findings

Each is proved by the members named, with the exact condition.

- `Idempotence.RepeatPlanned`, `RetriesAgree`, `RetriesAdd`: when a backend lists
  a new disk under another name, the same create sent again does not find it and
  adds another disk. Two successes return one disk exactly if the backend kept
  the name of the first. `RenamingBackend` shows that any create can meet such a
  reply, `HardDisk2` is one (`internal/morpheus/client_test.go:127-168`).
  `PaddedNameNeverFound`: the client compares names as given with trimmed ones,
  so each success for a name with spaces around it adds a disk; the controller
  trims names first.
- `Sizes.FloatCeiling`, `LowAbove53`: above 2^53 bytes the float ceiling can be
  one GiB low, exactly when the bytes beyond a whole GiB are at most half the
  spacing of doubles. `Sizes.CapacityFits`: the capacity returned overflows
  exactly above 2^63 - 2^30 + 512 bytes; `CapacityOverflows` is such a request,
  answered with a negative capacity.
- `Wire.WireStableExactly`, `SettlesAtOnce`: which identifiers survive a write
  and a read, and which settle after one. Padded text around an integer that is
  not canonical, such as `" 007 "`, changes twice (`UntrimmedTextDrifts`);
  `RoundTrip.DatastoreDrifts`: the datastore parameter can carry such text.
- `NodeStaging.StageEstablishes`, `StaleMountLeaks`: staging succeeds on a path
  that is already mounted from another disk; unstaging then removes that other
  disk, if it can be deleted, and forgets the record of the one that was staged,
  which stays present exactly in that case or if it cannot be deleted.
- `NodeStaging.CleanAttemptSucceeds`, `BusyDiskStays`: until the disk is removed,
  unstaging without faults succeeds exactly if the disk is mounted at no other
  path; while it is, no list of attempts succeeds, and disk and record stay.
- `Removal.RemovesWhatWasNamed`, `NestedPathRemovesNamesake`: for a device file
  in a directory below `/dev` only the last path element counts, so the whole
  disk of that name is removed. `RootItselfAccepted`: `/dev` itself is vetted
  like a device.
- `BlockDevices.DigitNeighbours`, `LetterNeighbours`, `MisjudgedExactly`: which
  names pass for a partition of a disk without being one; `nvme0n10` passes for
  one of `nvme0n1` (`NeighbourTakenForPartition`). `Removal.RefusedForNeighbour`:
  the removal of an unmounted disk is refused exactly when such a neighbour is
  mounted.
- `Moves.StrandsExactly`, `MoveAlone.MoveStrandsExactly`: a move leaves its
  volume on no server exactly if the detach was applied and then the detach was
  reported as failed, or the attach was refused (`UnreportedDetachStrands`,
  `RefusedAttachStrands`). `Moves.StrandedForever`: no later move finds it.
- `ControllerCreate.HintMatchesDisk`: the size hint for discovery is the size
  requested at creation, so a disk that was larger already, or was expanded, is
  not recognised by its size.
- `ControllerCreate.CreateReturnsRoot`: a create returns a root volume exactly
  when one has the requested name.
- `ControllerExpand.MovedVolumeNotExpanded`, `NoExpansionAfterMove`: an expansion
  looks on the server of the handle alone, so it does not find the volume exactly
  if it is not there, as after a move; a delete with the same handle does.
- `NodeStaging.PublishBinds`: publishing succeeds also where nothing is mounted at
  the staging path, and the target then has the node's own filesystem; it has that
  of the staging path exactly if something is mounted there.
- `Discovery.FoundIffDirectory`, `SymbolicLinksNeverFound`: a disk that meets
  every other condition is found exactly if the listing marks its entry as a
  directory. A directory listing does not mark a symbolic link so, and the
  entries of a Linux `/sys/block` are symbolic links: there discovery never
  returns a path, and staging for which no device path was given fails
  (`NodeStaging.StageNeedsDevice`).
- `History.KnownDiskReturned`, `RenamingExpandShares`: a create returns a disk
  that was there exactly if it is the first with the requested name, so after an
  expand that carried a name, the next create of that name returns that disk.

## Model

| member | source | states |
|---|---|---|
| ResizeTheorems.Linearizable | internal/morpheus/client.go:110-117 | For any number of threads and servers and any interleaving, the arrays are those of running the logged operations one at a time in PUT (or GET) order, and every finished thread returned what it would have returned then |
| ResizeTheorems.LogOrder | internal/morpheus/client.go:167-184 | That order has no thread twice and respects real time: an operation that finished before another started comes first |
| ResizeTheorems.SnapshotIsLive | internal/morpheus/client.go:241-261 | From its GET to its PUT, a lock holder's snapshot equals the live array of its server |
| ResizeTheorems.NothingClobbered | internal/morpheus/client_test.go:311-395 | A disk returned by any concurrent Ensure is still on its server at the end, at least as large as asked for, unless some delete names it |
| ResizeTheorems.ConcurrentCreatesApart | internal/morpheus/client.go:746-786 | Two concurrent creates with different names on one server never return the same disk, whatever names the backend gives and whatever else runs, unless an expand of that disk carries a name |
| ResizeTheorems.CreatedDiskIsFresh | internal/morpheus/client.go:746-786 | When the name was absent, the returned id occurs nowhere before the PUT and the disk is not a root volume |
| ResizeTheorems.StepFrame | internal/morpheus/client.go:427-449 | Each step leaves all other servers alone and changes its own by adding one entry, growing one, or removing one non-root entry, or not at all |
| ResizeTheorems.RunKeepsVolumes | internal/morpheus/client.go:427-449 | Over any stretch of a run no disk shrinks or loses a filled field, names change only by expands that carry one, no root disk goes, only disks a delete names go, and a disk that is gone does not come back |
| ResizeTheorems.TableGrowsOverRuns | internal/morpheus/client.go:169-184 | The lock table only grows and a server key keeps its mutex for ever |
| ResizeTheorems.LocksSeparate | internal/morpheus/client.go:169-184 | Distinct keys have distinct mutexes and at most one thread is between lock and unlock of a server, in every reachable state |
| ResizeTheorems.NoDeadlock | internal/morpheus/client.go:169-184 | While some thread is unfinished, some step is possible |
| ResizeTheorems.RunsEnd | internal/morpheus/client.go:454-471 | A run of n threads has at most 15 n steps, whatever the schedule and the replies |
| Linearizability.StepKeepsInv | internal/morpheus/client.go:241-287 | The protocol invariant (log, times, per-thread knowledge, locks) is kept by every step of every thread |
| Linearizability.RunKeepsInv | internal/morpheus/client.go:241-287 | The invariant holds after every run |
| Linearizability.PollStep | internal/morpheus/client.go:454-471 | A poll under the lock continues the lookup that the operation run alone would make, and ends within six attempts |
| ResizeProtocol.MutualExclusion | internal/morpheus/client.go:182-183 | Two threads inside the critical section of one server are one thread |
| ResizeProtocol.LockStepKeepsTable | internal/morpheus/client.go:171-180 | A step keeps the table injective and its holder unique, also when it adds a mutex |
| ResizeProtocol.LockStepKeepsLocks | internal/morpheus/client.go:182-183 | A step keeps every thread inside a server the holder of that server's mutex, and every held mutex owned by such a thread |
| ResizeProtocol.GivesUpAtSixth | internal/morpheus/client.go:454-472 | A lookup that sees no such volume goes on for five polls and gives up at the sixth |
| ResizeOps.WriteIsOneEdit | internal/morpheus/client.go:427-449 | What a backend stores for a write is the array before with exactly one entry added, grown or removed |
| ResizeOps.GrowWrite | internal/morpheus/client.go:431-440 | A resize changes the size of the named entry only, and fills its type and datastore only if they were blank |
| ResizeOps.CreateWrite | internal/morpheus/client.go:441-449 | A create keeps all entries in order and appends one with a fresh id, the requested size and no root flag |
| ResizeOps.RemoveWrite | internal/morpheus/client.go:280-286 | A delete drops exactly the named entry and keeps the order of the others |
| ResizeOps.EffectSound | internal/morpheus/client.go:241-287 | An operation keeps ids distinct and known, never forgets a used id, and touches no other server |
| History.EnsureResult | internal/morpheus/client.go:746-754 | The volume a successful Ensure returns is in the array afterwards, large enough, fresh if the name was absent and the named one otherwise |
| History.CreateFindsNewDisk | internal/morpheus/client.go:756-786 | After a create, by name or by difference, the lookup finds the appended disk and no other, even if the backend renamed it |
| History.HistoryKeeps | internal/morpheus/client.go:427-449 | Between any two points of a sequential history no disk shrinks, comes back after deletion or goes without a delete |
| History.DistinctNamesDistinctDisks | internal/morpheus/client.go:746-786 | Creates with different names in one history return different ids, unless an expand of the disk carries a name |
| History.NameKept | internal/morpheus/client.go:431-440 | A disk seen at two points of a history has one name, unless an expand of it carries a name |
| History.KnownDiskReturned | internal/morpheus/client.go:253-260 | A success returns a disk known before exactly if that disk is the first with the requested name |
| History.RenamingExpandShares | internal/morpheus/client.go:359-387 | After an expand that renamed a disk, the create of the new name is answered with that disk |
| History.EnsuredDiskRemains | internal/morpheus/client.go:110-117 | A disk an Ensure returned lives on to the end of the history unless deleted |
| Idempotence.RepeatPlanned | internal/morpheus/client.go:253-260 | A create sent again is answered with its disk exactly when the backend kept the name, and else writes another new disk |
| Idempotence.RenamingBackend | internal/morpheus/client_test.go:127-168 | Any create can be answered under another name, and the same request would then write a second new disk |
| Idempotence.HardDisk2 | internal/morpheus/client_test.go:127-168 | Such an answer: a disk asked for as one name and listed as "Hard Disk 2" |
| Idempotence.EnsureOnce | internal/morpheus/client.go:253-260 | One Ensure, succeeding or not, keeps at most one volume of its name, keeps its id and does not shrink it; after a success there is one exactly if there was one or the backend kept the requested name |
| Idempotence.OpKeepsName | internal/morpheus/client.go:241-287 | Any other creation, expansion or deletion keeps the one volume of a name, its id and its size, unless a delete names it or an expand carries a name for it. The other request must not differ from the name in spaces only, and the expand must not get the name stored for its disk |
| Idempotence.EnsureIdempotent | internal/morpheus/client.go:241-261 | A non-empty sequence of successful Ensures of one name leaves one volume of that name whose id every call returned, exactly if the first returned disk has the name; its size is then the largest request or the initial one |
| Idempotence.RetriesAdd | internal/morpheus/client.go:441-449 | Successful retries of an absent name add one disk exactly if there was one try or the first kept the name, and one each, with ids of their own, as long as the backend renames |
| Idempotence.PaddedNameNeverFound | internal/morpheus/client.go:253-260 | A successful request for a name with spaces around it adds a disk, whatever was there |
| Idempotence.RetriesAgree | internal/morpheus/client.go:241-261 | In a history with at most one volume of the name at the start, no other request that differs from it in spaces only, and no expand whose disk is stored under the name: two successes for the name return one disk exactly if the first got the name, unless a delete names that disk or an expand carries a name for it |
| Idempotence.RepeatedEnsure | internal/morpheus/client.go:241-261 | In such a history, failed attempts and other operations included: there is never a second volume of the name, and the one there is is the disk a success returned exactly if that disk has the name, not smaller than asked for, unless a delete names the disk or an expand carries a name for it |
| Idempotence.ConcurrentRetriesAgree | internal/driver/controller.go:27-74 | The same for concurrent retries that overlap any creations, expansions and deletions of such a kind: one id exactly if the one that took effect first got the name |
| ResizeClient.Client.LockServer | internal/morpheus/client.go:169-184 | Locking gives the key its one mutex, creates it at most once, leaves all others as they are, waits while another caller owns it, and then owns it: at the first moment it is free, with the arrays and mutexes of that moment |
| ResizeClient.AcquiredFirst | internal/morpheus/client.go:182-183 | Of the moments other callers leave behind, the call runs from the first at which nobody owns the key's mutex |
| ResizeClient.NeverAcquired | internal/morpheus/client.go:182-183 | It gets the mutex exactly if there is such a moment |
| ResizeClient.LeftOrderly | internal/morpheus/client.go:169-184 | After the operation every key has its own mutex still, no key has another than before the wait, and the arrays are sound |
| ResizeClient.Client.EnsureVolume | internal/morpheus/client.go:241-261 | Step by step under the lock, also when it had to wait, Ensure leaves the backend and returns the result that the operation run alone is specified to from the arrays at the moment it gets the mutex; the mutex is released, and a rejected request neither waits nor changes anything |
| ResizeClient.Client.DeleteVolume | internal/morpheus/client.go:263-287 | The same for Delete, with its answers for a missing volume and a root volume |
| ResizeClient.Client.ExpandVolume | internal/morpheus/client.go:359-387 | The same for Expand, with its refusals of a missing volume, a root volume and shrinking |
| ResizeClient.Client.ResizeVolume | internal/morpheus/client.go:427-472 | Builds the next array, writes it, and returns what the six-attempt lookup finds, or the failure |
| ResizeClient.Client.Lookup | internal/morpheus/client.go:454-471 | The loop gives the first found volume, or the error of the first attempt that cannot be made, or gives up after six |
| ResizeOps.InvalidExactly | internal/morpheus/client.go:404-415 | A request is rejected as invalid exactly when no key names a server, neither name nor id is given, or the size is not positive, whatever the backend says; and it never reaches the backend |
| ResizeOps.ExpandInvalidExactly | internal/morpheus/client.go:359-366 | An expand is rejected exactly without a server, without an id, or for a size that is not positive, and never reaches the backend then |
| ResizeOps.DeleteInvalidExactly | internal/morpheus/client.go:417-425 | A delete, exactly without a server or an id |
| Outcomes.ServerChosen | internal/morpheus/client.go:673-684 | Ensure and Expand go to the trimmed value of the first of the keys morpheus.serverId, morpheus.hostId and morpheus.instanceId that is not blank, and to none exactly if all are |
| Outcomes.StorageTypeChosen | internal/morpheus/client.go:686-697 | The storage type is the trimmed value of the first of two keys that is not blank, and "38" if both are |
| Outcomes.CreateAsks | internal/morpheus/client.go:441-449 | Where the name is absent, what is written is the array that was read and one entry more, without an id, with the requested name and size, no root flag, and the type and datastore of the storage class |
| Outcomes.GrowAsks | internal/morpheus/client.go:431-440 | Else it is the array that was read with the named entry changed: the requested size, the given name if there is one, and the type and datastore of the storage class exactly where they were blank |
| Outcomes.EnsureAnswers | internal/morpheus/client.go:241-261 | For every sound backend and legal reply: a volume of the name that is large enough is returned and nothing is written; a smaller one grows, and success follows exactly if the write is applied and then seen; an absent name adds a disk, and success needs besides that the backend made it recognisable |
| Outcomes.ExpandAnswers | internal/morpheus/client.go:372-386 | Exactly when an expand answers that there is no such volume, that it is a root volume, or that it is larger already; a volume of the size is returned as it is; and nothing is written unless a smaller one that is no root volume has the id |
| Outcomes.ExpandWrites | internal/morpheus/client.go:386 | In that case the named entry, and no other, grows to the requested size if the write is applied, and success follows exactly if the first lookup sees it |
| Outcomes.ExpandReturns | internal/morpheus/client.go:359-387 | Whatever an expand returns has the requested id and exactly the requested size, is no root volume, and is in the array afterwards |
| Outcomes.DeleteAnswers | internal/morpheus/client.go:273-286 | A volume that is absent is deleted already, a root volume is refused, and any other goes exactly if the write is applied |
| Outcomes.LookupAnswers | internal/morpheus/client.go:454-471 | The lookup after a write: the first reply decides if the disk is there, else the first of six that shows no array, and after six it gives up |
| Outcomes.LookupFindsFirst | internal/morpheus/client.go:746-786 | In whatever arrays, a create finds the first entry of the name, else the first that is new, no root volume, of no known size too small, and of no other type and datastore; and nothing exactly if there is none |
| Outcomes.RecognisedIsFound | internal/morpheus/client.go:756-786 | A disk the backend added is found exactly if it has the name, or no type and datastore other than those asked for |
| Volumes.BuildResized | internal/morpheus/client.go:427-449 | The loop builds the specified next array, with an entry appended exactly when none was touched |
| Volumes.BuildWithout | internal/morpheus/client.go:280-285 | The loop keeps exactly the entries with other ids, in order |
| Volumes.FindNewVolume | internal/morpheus/client.go:756-786 | The loop returns the first entry that is new, not root, large enough, and of a compatible type and datastore |
| Volumes.FirstNewFound | internal/morpheus/client.go:756-786 | That entry is an admissible candidate, and there is none only if no entry is admissible |
| Volumes.FindResizedVolume | internal/morpheus/client.go:746-754 | By id if there is one, else by name, else by difference |
| Volumes.FindVolumeByName | internal/morpheus/client.go:728-735 | The first entry of that name |
| Volumes.FindVolumeByID | internal/morpheus/client.go:737-744 | The first entry with that id |
| Volumes.WithoutAt | internal/morpheus/client.go:280-285 | With distinct ids the entries without one id are the array with one position cut out |
| Moves.StepKeepsInv | internal/morpheus/client.go:306-357 | While movers of different volumes interleave, every step keeps each volume in one place and loses, doubles or alters none |
| Moves.InitialInv | internal/morpheus/client.go:306-313 | Before any mover starts, that invariant says exactly that every volume is in one place |
| Moves.MovesConserve | internal/morpheus/client.go:306-357 | The same over whole runs |
| Moves.RootStays | internal/morpheus/client.go:317-319 | No run of moves takes a root volume off its server |
| Moves.SuccessMeansOnTarget | internal/morpheus/client.go:329-341 | A move that reports success has the volume on its target, on no other server, and not detached |
| Moves.AttachAfterDetach | internal/morpheus/client.go:321-327 | When the attach is sent the volume is on no server |
| Moves.StrandsExactly | internal/morpheus/client.go:321-327 | A step strands a volume exactly if its own mover's detach is applied but reported as failed, or its attach is refused |
| Moves.UnreportedDetachStrands | internal/morpheus/client.go:321-323 | A detach that is applied but reported as failed leaves the volume on no server, with no attach sent |
| Moves.RefusedAttachStrands | internal/morpheus/client.go:325-327 | A refused attach leaves the volume on no server |
| MoveAlone.MoveStrandsExactly | internal/morpheus/client.go:306-343 | A move leaves a volume it found on no server exactly if it set out to move it, the detach was applied, and the detach was reported as failed or the attach refused |
| MoveAlone.RunIsMoveAlone | internal/morpheus/client.go:306-343 | A run of a single mover in the step machine gives the world and outcome of the move by itself on the replies it received |
| Moves.StrandedForever | internal/morpheus/client.go:310-313 | Such a volume is not found, hence not attached, by any later move |
| MoveAlone.MoveAloneDisturbs | internal/morpheus/client.go:306-343 | Whatever fails, a move changes nothing but its own volume's place, and success means on the target and nowhere else |
| MoveAlone.MoveSucceeds | internal/morpheus/client.go:306-343 | A non-root volume on a readable candidate does get moved when the backend does its part and some poll sees it |
| MoveAlone.Mover.MoveVolume | internal/morpheus/client.go:306-343 | Find, detach, attach and confirm, step by step, give the specified world and outcome |
| MoveAlone.Mover.Confirm | internal/morpheus/client.go:329-342 | The loop returns the volume at the first attempt that sees it, and gives up after six |
| MoveAlone.Mover.DetachVolume | internal/morpheus/client.go:345-350 | Takes exactly the named volume off its server, unless refused |
| MoveAlone.Mover.AttachVolume | internal/morpheus/client.go:352-357 | Puts the detached volume on the target, unless refused |
| Candidates.UniqueNonEmpty | internal/morpheus/client.go:906-921 | The loop with its seen set returns the specified deduplication |
| Candidates.UniqueElements | internal/morpheus/client.go:906-921 | The result holds exactly the trimmed non-blank values, without repeats |
| Candidates.UniqueOrder | internal/morpheus/client.go:906-921 | In the order of their first occurrences |
| Candidates.UniqueIdempotent | internal/driver/controller.go:251-266 | Deduplicating again changes nothing |
| Candidates.FindVolume | internal/morpheus/client.go:289-304 | The search loop gives the specified result |
| Candidates.SearchExactly | internal/morpheus/client.go:289-304 | A found volume is on the server named; when all servers answer, it is found exactly if some candidate has it |
| Candidates.FindIgnoresRepeats | internal/morpheus/client.go:289-304 | The answer is the same on a list and on its deduplication |
| Candidates.FindIgnoresOrder | internal/morpheus/client.go:289-304 | For a volume on at most one readable candidate the order of candidates does not matter |
| ControllerDelete.DeleteVolume | internal/driver/controller.go:77-96 | Decode, search in the arrays at the call, delete on the holder or else on the handle's server from the arrays at the moment its mutex is free, with the specified effect and answer |
| ControllerDelete.DecodedIsTidy | internal/morpheus/client.go:190-196 | An accepted handle decodes to a trimmed, non-empty server and volume id |
| ControllerDelete.TargetHolds | internal/driver/controller.go:85-91 | When candidates answer, the delete goes to a holder if there is one |
| ControllerDelete.DeleteAfterMove | internal/driver/controller.go:77-96 | A successful delete leaves the volume on no candidate exactly when it was on at most one, however stale the handle |
| ControllerDelete.DeleteTouchesNothingElse | internal/driver/controller.go:92-94 | Other servers and other volumes are unchanged |
| ControllerDelete.RepeatedDelete | internal/morpheus/client.go:273-276 | Deleting again succeeds and writes nothing |
| ControllerDelete.CandidatesIncludeHandle | internal/driver/controller.go:240-249 | The handle's server is always among the candidates, which are trimmed and deduplicated already |
| ControllerCreate.CreateVolume | internal/driver/controller.go:27-75 | Validates, ensures the volume, waiting for the server's mutex, and answers handle, capacity and context from the result; invalid arguments change nothing |
| ControllerCreate.ValidateVolumeCapabilities | internal/driver/controller.go:285-309 | Accepts exactly a non-empty list of single-node writer mounts, and else reports the fault of the first faulty one |
| ControllerCreate.FaultExactly | internal/driver/controller.go:289-307 | Which capability has which fault: none at all, a raw block, no mount, or a mode other than the three usable ones |
| ControllerCreate.CapableExactly | internal/driver/controller.go:285-309 | A list is usable exactly if it is not empty and no capability has a fault |
| ControllerCreate.RequestSent | internal/driver/controller.go:31-52 | A create is sent to the client exactly with a name, usable capabilities, a server and an acceptable size; with the trimmed name and that size; and the client accepts it |
| ControllerCreate.AnsweredHandle | internal/driver/controller.go:69-70 | The answered handle decodes to the server of the storage class and the id of the volume exactly if both can be part of a handle |
| ControllerCreate.AnsweredCapacity | internal/driver/controller.go:71 | The answered capacity is less than one GiB above what was required, and short of it by 512 bytes at most |
| ControllerCreate.AnsweredContext | internal/driver/controller.go:56-67 | The volume context holds server, volume id, name and requested size under their keys, a device path and a filesystem type exactly if there is one, and nothing else |
| ControllerCreate.AnsweredFailure | internal/driver/controller.go:48-54 | A create is answered with a volume exactly if the client returned one, and else with its error |
| ControllerCreate.RetriedHandle | internal/driver/controller.go:70 | Retries of one create answer one handle exactly if the client returned one disk |
| ControllerCreate.CreateThenDelete | internal/driver/controller.go:77-96 | Deleting the handle that was answered for a newly created disk gives every array back as it was, whatever the resolver knows and whichever servers do not answer the search |
| ControllerCreate.HandleNamesDisk | internal/driver/controller.go:70 | The handle that the create answered decodes to the disk's server and id, and a delete of it goes there |
| ControllerCreate.FreshDiskTarget | internal/driver/controller.go:85-91 | A fresh disk is found nowhere else, so the search finds it in place or falls back to that place |
| ControllerCreate.CreateReturnsRoot | internal/morpheus/client.go:253-260 | A create returns a root volume exactly when a root volume has the requested name |
| ControllerCreate.HintMatchesDisk | internal/driver/node.go:783-795 | The hint that reaches the node is the size requested at creation, and the disk matches it exactly if that is still its size |
| ControllerCreate.FirstSizeDecides | internal/driver/node.go:783-796 | The hint is the size in the first context that gives a positive one, and none if no context does |
| ControllerCreate.PublishedSizeExactly | internal/driver/controller.go:129-131 | The publish context carries the trimmed size on exactly if it says something |
| ControllerExpand.ExpandVolume | internal/driver/controller.go:158-190 | Decodes, validates, expands on the handle's server from the arrays at the moment its mutex is free, and answers the capacity of the returned volume or the error |
| ControllerExpand.ExpansionRejected | internal/driver/controller.go:162-175 | A request is sent exactly for a handle that decodes, a usable capability if one is given, and an acceptable size |
| ControllerExpand.ExpansionSent | internal/driver/controller.go:176-182 | It goes to the server and id of the handle, carries no name, asks for the size of the request, and the client accepts it |
| ControllerExpand.ExpandedExactly | internal/driver/controller.go:186-189 | An answered capacity means that the volume of the handle is on the handle's server afterwards, of exactly that size, the requested one |
| ControllerExpand.ExpansionFailure | internal/driver/controller.go:183-185 | There is a capacity in the answer exactly if the client returned a volume, and else its error |
| ControllerExpand.MovedVolumeNotExpanded | internal/driver/controller.go:176-182 | The volume is not found exactly if it is not on the handle's server, although a delete with that handle goes to where it is |
| ControllerExpand.NoExpansionAfterMove | internal/driver/controller.go:176-182 | After a successful move off the handle's server no expansion finds the volume |
| ControllerExpand.CreateThenExpand | internal/driver/controller.go:158-190 | Expanding the handle that a create answered grows the created disk and no other, and answers the requested size |
| NodeStaging.DataSurvives | internal/driver/node.go:232-242 | Over any calls and failures, also across removal and re-attach, a disk with a filesystem is never formatted |
| NodeStaging.OnlyStagingFormats | internal/driver/node.go:218-249 | A call changes a disk's contents only by staging that disk, blank, at an unmounted path, with one mkfs |
| NodeStaging.RestageChangesNothing | internal/driver/node.go:225-231 | Staging a mounted path changes neither mounts, devices nor disks |
| NodeStaging.StageEstablishes | internal/driver/node.go:39-73 | A successful stage leaves the path mounted and the device recorded, and the mount is from the device's disk exactly unless the path was mounted from another before |
| NodeStaging.StageFormats | internal/driver/node.go:232-249 | A successful stage at an unmounted path leaves the device's disk mounted there with a filesystem: mkfs ran once if it was blank, and else not at all |
| NodeStaging.StageTouches | internal/driver/node.go:232-249 | Whatever fails: mkfs runs exactly on a disk that was probed blank, and the mount is made exactly on a disk with a filesystem or after a successful mkfs |
| NodeStaging.StageStopsEarly | internal/driver/node.go:39-73 | A stage that does not get to an unmounted path with its device present touches neither mounts nor disks |
| NodeStaging.StageSucceedsExactly | internal/driver/node.go:39-73 | Exactly when staging succeeds, over all calls that may fail; the trimmed device path is recorded then and only then |
| NodeStaging.PublishBinds | internal/driver/node.go:251-269 | A successful publish at an unmounted target mounts there what is mounted at the staging path, or the node's own filesystem exactly if nothing is; other mounts stay |
| NodeStaging.PublishSucceedsExactly | internal/driver/node.go:118-137 | Exactly when publishing succeeds; a failed read-only remount leaves the target mounted |
| NodeStaging.StageThenPublish | internal/driver/node.go:118-137 | Stage, then publish: the target is mounted from the staged disk, which has a filesystem, exactly if the staging path was not mounted from another disk before |
| NodeStaging.UnpublishUnbinds | internal/driver/node.go:139-151 | Unpublishing takes the target's mount away and nothing else, and when it succeeds |
| NodeStaging.UnstageRecovers | internal/driver/node.go:84-115 | After a successful stage, over any failing attempts, the record is there until the disk is gone; the first success leaves the path unmounted, the record forgotten and the disk gone if it can be deleted |
| NodeStaging.UnstageNeedsArguments | internal/driver/node.go:75-83 | Without a volume id or a path unstaging fails and changes nothing |
| NodeStaging.AttemptsAdvance | internal/driver/node.go:101-114 | Recovery never falls back to an earlier phase, and a success is its last |
| NodeStaging.UnstageAdvances | internal/driver/node.go:84-115 | One attempt, failing anywhere, stays in its phase or moves on |
| NodeStaging.CleanAttemptSucceeds | internal/driver/node.go:75-116 | From every phase an attempt without faults succeeds exactly if the disk is removed already or is mounted nowhere else |
| NodeStaging.BusyDiskStays | internal/driver/node.go:358-369 | While the disk is mounted elsewhere no list of attempts succeeds, whatever else fails, and nothing but the mount of the staging path goes |
| NodeStaging.StageNeedsDevice | internal/driver/node.go:54-59 | Without a device path staging fails and changes nothing |
| NodeStaging.StaleMountLeaks | internal/driver/node.go:225-231 | A clean unstage removes the disk that is mounted if it can be deleted and forgets the record; the staged device is present afterwards exactly if the path was mounted from another disk or the device cannot be deleted |
| NodeStaging.NextCoherent | internal/driver/node.go:358-369 | After every call mounted disks are present under the paths they were mounted from |
| NodePlugin.Plugin.StageVolume | internal/driver/node.go:39-73 | Rescan, stage, record in this order have the specified effect on mounts, disks and records; success at an unmounted path leaves the device's disk mounted there with a filesystem |
| NodePlugin.Plugin.UnstageVolume | internal/driver/node.go:75-116 | Source, unmount, remove, forget in this order have the specified effect |
| NodePlugin.Plugin.StageAt | internal/driver/node.go:218-249 | Wait, mount check, probe, format, mount: at an unmounted path a blank disk gets a filesystem by one mkfs before it is mounted |
| NodePlugin.Plugin.Bind | internal/driver/node.go:251-269 | Binds to an unmounted target what is mounted at the source, with the read-only remount that may fail after it |
| NodePlugin.Plugin.UnmountAt | internal/driver/node.go:275-289 | Unmounts, or succeeds on an unmounted path |
| NodePlugin.Plugin.Remove | internal/driver/node.go:358-381 | Refuses a mounted disk, leaves one without a delete node, else takes all paths of the disk away |
| NodePlugin.Plugin.PublishVolume | internal/driver/node.go:118-137 | Checks its arguments and binds the staging path's mount to the target |
| NodePlugin.Plugin.UnpublishVolume | internal/driver/node.go:139-151 | Checks its arguments and unmounts |
| Discovery.DiscoverDevicePath | internal/driver/node.go:310-356 | Returns a path exactly when the first conclusive attempt has a sole candidate, doubt exactly when it has several, cancellation exactly when a wait is cut short before; all earlier attempts had an error or no usable disk |
| Discovery.LastErrorExactly | internal/driver/node.go:310-356 | Which error a search without an answer ends with: the failed rescan, the failed scan, or no disk, of the last attempt |
| Discovery.ListsDecide | internal/driver/node.go:327-348 | The lists are empty, of one, or longer exactly when there is no usable disk, a sole one, or several |
| Discovery.ClassifyBlockDevices | internal/driver/node.go:566-604 | The scan fails exactly when it cannot be listed or some candidate's state is unclear, and else lists the usable blank and formatted disks |
| Discovery.ScansExactly | internal/driver/node.go:566-604 | A scan ends without an error exactly if the directory can be listed and every candidate is known to be mounted, blank or formatted |
| Discovery.UsableIsSafe | internal/driver/node.go:572-598 | A disk that may be taken is of none of the seven kinds, has no partition file under a name of its own, is no source of a mount, and with a hint has sectors for exactly that many GiB |
| Discovery.StableDevicePath | internal/driver/node.go:638-648 | The first by-path link that resolves to the device, else the device path |
| Discovery.FirstLinkTaken | internal/driver/node.go:638-648 | The path is that of the first link that resolves to the device, and the plain one exactly if there is none |
| Discovery.FoundIffDirectory | internal/driver/node.go:573-575 | A disk that alone meets every other condition is found exactly if the listing marks its entry as a directory |
| Discovery.SymbolicLinksNeverFound | internal/driver/node.go:573-575 | Where no entry is marked as a directory, no search returns a path |
| Discovery.DecideScan | internal/driver/node.go:328-353 | The two lists of a finished scan decide the search or leave it going |
| Discovery.WaitForDevice | internal/driver/node.go:522-540 | Succeeds exactly when the device is present at some attempt that no cancelled wait precedes |
| Discovery.DiscoveredIsRemovable | internal/driver/node.go:358-381 | Removing the discovered path writes the delete node of the disk that was found, exactly when it has one and is idle |
| Removal.RemoveDevice | internal/driver/node.go:358-381 | Writes the delete node exactly for a device that is safe to remove, and succeeds without it exactly when there is none |
| Removal.SafeRemoval | internal/driver/node.go:667-720 | Such a device is a whole disk of no skipped kind without partitions, and neither it nor any partition of it, however numbered, is a mount source |
| Removal.RemovesWhatWasNamed | internal/driver/node.go:672-683 | The device removed is the one the path resolves to exactly for device files directly below the root |
| Removal.NestedPathRemovesNamesake | internal/driver/node.go:676-683 | A device file in a directory below it gets the disk of the same name removed |
| Removal.RootItselfAccepted | internal/driver/node.go:676-683 | The device root itself is vetted exactly when no line mounts a device of its name, and has no delete node as long as no block device bears its name |
| Removal.RefusedForNeighbour | internal/driver/node.go:696-720 | The removal of a deletable disk of which nothing is mounted is refused exactly when a name that passes for its partition, without being one, is mounted |
| Removal.RemovableBlockDeviceName | internal/driver/node.go:667-694 | Names the device exactly when path, kind and partitions allow it |
| Removal.IsBlockDeviceMounted | internal/driver/node.go:696-720 | Says idle exactly when no readable line mounts the device or a recognised partition |
| Removal.IdleExactly | internal/driver/node.go:696-720 | A device is idle without a mount table, or if no source in it resolves to the device or to a name that passes for its partition |
| Removal.BlankPathRefused | internal/driver/node.go:668-671 | Nothing is removed for a path of spaces |
| RemovalRefines.RemovalRefines | internal/driver/node.go:358-381 | Where the trees show the node's state, and for a whole disk, the code refuses a mounted disk under whatever path, and writes the delete node exactly when the node machine takes the disk away |
| BlockDevices.PartitionRecognised | internal/driver/node.go:734-740 | Every partition name Linux gives is recognised |
| BlockDevices.PartitionExactly | internal/driver/node.go:734-740 | Which names are partitions of a disk: what has to follow the disk's name |
| BlockDevices.DigitNeighbours | internal/driver/node.go:734-740 | Digits after a disk's name always pass for a partition, and name one exactly if the disk's name does not end in a digit and they are canonical |
| BlockDevices.LetterNeighbours | internal/driver/node.go:734-740 | A 'p' after it always passes, and names one exactly if the disk's name ends in a digit and canonical digits follow |
| BlockDevices.MisjudgedExactly | internal/driver/node.go:734-740 | Exactly which names pass for a partition and are none |
| BlockDevices.NeighbourTakenForPartition | internal/driver/node.go:734-740 | One of them: a neighbouring namespace |
| BlockDevices.FieldsJoin | internal/driver/node.go:705-710 | A mount table line written as tokens reads back as those tokens |
| BlockDevices.SourceOfTokens | internal/driver/node.go:705-710 | The source of a line of ten or more tokens is the last but one; shorter lines have none |
| BlockDevices.BaseOfClean | internal/driver/node.go:672-680 | The last element of a cleaned absolute path is a plain name |
| BlockDevices.CleanDrops | internal/driver/node.go:672-676 | Cleaning a path: a slash or a dot at the end does not matter, and a name is undone by the parent directory after it |
| BlockDevices.CleanAboveRoot | internal/driver/node.go:672-676 | The parent directory of the root is the root |
| BlockDevices.CleanRelative | internal/driver/node.go:672-676 | A parent directory in front of a relative path stays |
| BlockDevices.CleanOfNames | internal/driver/node.go:672-676 | An absolute path of plain names is clean |
| BlockDevices.CleanTwice | internal/driver/node.go:672-676 | Cleaning an absolute path again changes nothing |
| BlockDevices.IsMountedSource | internal/driver/node.go:650-665 | The loop over the mount table gives the specified answer, with its missing and unreadable cases |
| BlockDevices.MountedFromExactly | internal/driver/node.go:658-663 | That answer is true exactly when some line's source resolves as the given path, and unknown exactly when the table cannot be read |
| BlockDevices.HasPartitions | internal/driver/node.go:615-623 | True exactly when an entry named after the device has a partition file |
| BlockDevices.PartitionedExactly | internal/driver/node.go:615-623 | With entries named as Linux names partitions, a disk is partitioned exactly if one of them holds a partition file |
| BlockDevices.SkipBlockDevice | internal/driver/node.go:606-613 | True exactly for the seven prefixes |
| BlockDevices.SkippedExactly | internal/driver/node.go:606-613 | The seven prefixes |
| VolumeHandle.DecodeAccepts | internal/morpheus/client.go:190-196 | A handle is accepted exactly if, trimmed, it is two non-blank colon-free halves around one colon |
| VolumeHandle.DecodeEncode | internal/morpheus/client.go:186-196 | Printing and parsing gives the trimmed pair back exactly for non-blank colon-free parts |
| VolumeHandle.DecodeEncodeDecode | internal/morpheus/client.go:186-196 | Every accepted handle decodes as its canonical spelling does |
| VolumeHandle.EncodeInjective | internal/morpheus/client.go:186-188 | Valid pairs print alike exactly if they trim alike |
| RoundTrip.PayloadRoundTrip | internal/morpheus/client.go:508-534 | Parsing what was written gives the array back, device paths aside, exactly when every volume is portable |
| RoundTrip.EntryRoundTrip | internal/morpheus/client.go:699-726 | The same for one entry, blank ids included |
| RoundTrip.EverydayIsPortable | internal/morpheus/client.go:890-895 | Trimmed text, sizes from 1 to 2^30 and identifiers that are text or canonical decimals up to 2^53 are portable |
| RoundTrip.ReadSizeExactly | internal/morpheus/client.go:851-860 | A written size reads back exactly when a double holds it and it is at most 2^30 |
| RoundTrip.ResizeVolumesPayload | internal/morpheus/client.go:508-534 | The loop writes one item per volume, in order |
| RoundTrip.KeepPresent | internal/morpheus/client.go:618-631 | The loop keeps the entries that parse, in order |
| Descriptions.FirstValueSaid | internal/morpheus/client.go:792-799 | Of alternative keys the first that is present decides, even with a null |
| Descriptions.RootSaid | internal/morpheus/client.go:862-872 | Which keys and which spellings say that a volume is a root volume |
| Descriptions.SizeSaid | internal/morpheus/client.go:851-860 | A positive size in GiB decides; else a size that is read as bytes, rounded up, exactly above 2^30 |
| Descriptions.TypeSaid | internal/morpheus/client.go:708-715 | The storage type stands as a value, or as the id of an object |
| Descriptions.DatastoreSaid | internal/morpheus/client.go:709-718 | So does the datastore |
| Descriptions.DeviceSaid | internal/morpheus/client.go:711-721 | The device path stands as a value or in an object, and is normalised either way |
| Descriptions.EntryKept | internal/morpheus/client.go:699-726 | An entry is kept exactly if it is an object that says an id |
| Descriptions.ListSaid | internal/morpheus/client.go:618-631 | The volumes stand under the first of three keys that holds a list with entries |
| Descriptions.EntrySent | internal/morpheus/client.go:508-534 | What is sent for an entry: no size id, and -1 instead of an id exactly for a disk that has none and is not the root disk |
| Descriptions.NumberOf | internal/morpheus/client.go:832-849 | The number in a value: text counts as far as it is one, with spaces around it |
| Wire.NormalizedDevicePath | internal/morpheus/client.go:874-888 | A name of a disk gets the device root in front, anything else is only trimmed |
| Wire.TruncatedNumber | internal/morpheus/client.go:835-836 | A number loses its fraction toward zero, and one outside 64 bits reads as the smallest |
| Wire.WireStableExactly | internal/morpheus/client.go:815-830 | An identifier survives a write and a read exactly if it is trimmed and no integer, or a canonical decimal a double holds |
| Wire.SmallIntegersStable | internal/morpheus/client.go:890-895 | Canonical decimals up to 2^53 survive |
| Wire.WireTextIdempotent | internal/morpheus/client.go:815-830 | For trimmed text one trip normalises for good |
| Wire.SettlesAtOnce | internal/morpheus/client.go:815-830 | Text is stable after one trip exactly if it is trimmed or its trimmed form is stable, and always after two |
| Wire.UntrimmedTextDrifts | internal/morpheus/client.go:815-830 | Padded text around a non-canonical integer that takes two |
| RoundTrip.DatastoreDrifts | internal/morpheus/client.go:442-448 | The datastore parameter of a created disk, read back and resent, reads the same exactly if it is trimmed or its trimmed form is stable |
| Numerals.ParseFormat | internal/morpheus/client.go:890-895 | Parsing a printed int64 gives it back |
| Numerals.FormatParse | internal/morpheus/client.go:890-895 | Printing a parsed text gives it back exactly for canonical decimals |
| Numerals.SignedText | internal/morpheus/client.go:890-895 | A plus sign changes nothing, a minus sign negates, and only -2^63 has no positive counterpart |
| Numerals.TooManyDigits | internal/morpheus/client.go:833-834 | Where the error is ignored, digits that are too large give the nearest bound |
| Numerals.JunkAfterDigits | internal/morpheus/client.go:833-834 | Digits before something else give the bound only beyond 64 bits without a sign; all other text gives zero |
| Sizes.FloatCeiling | internal/driver/controller.go:270-283 | The float ceiling is the integer one, or one lower exactly when the bytes beyond a whole GiB are at most half a spacing of doubles |
| Sizes.RejectedExactly | internal/driver/controller.go:270-281 | Which requests are rejected, and for what: no range, nothing required, or more than the limit |
| Sizes.AcceptedIsPositive | internal/driver/controller.go:282 | An accepted 64-bit requirement asks for one GiB at least |
| Sizes.ExactUpTo53 | internal/driver/controller.go:270-283 | Exact up to 2^53 bytes |
| Sizes.LowAbove53 | internal/driver/controller.go:270-283 | One byte more is lost |
| Sizes.CapacityClose | internal/driver/controller.go:71 | Up to 2^63 - 2^30 the returned capacity fits, is below required + 2^30, and short by at most 512 bytes, exactly in that case |
| Sizes.CapacityFits | internal/driver/controller.go:71 | The exact limit of a capacity that fits in 64 bits |
| Sizes.CapacityOverflows | internal/driver/controller.go:71 | An accepted request beyond it is answered with a negative capacity |
| Sizes.SectorsAgree | internal/driver/node.go:625-636 | A disk of s GiB is read back from its sectors as s, without overflow, up to 2^33 - 1 |
| Sizes.SectorsRoundUp | internal/driver/node.go:625-636 | A sector count reads as the smallest number of GiB that holds it, and text that is no number as none |
| Sizes.SectorsOverflow | internal/driver/node.go:634-635 | Less than one GiB below 2^63 bytes the rounding overflows and the size reads as negative |
| Sizes.BackendSizesAgree | internal/morpheus/client.go:851-860 | s is recovered from a size of s, and from s GiB in bytes for s of 2 to 2^30 |
| Sizes.ThreeSizesAgree | internal/driver/controller.go:282 | The size the controller computes is the one the node and the backend parser read back |
| Float64.RoundedIsNearest | internal/driver/controller.go:282 | The conversion to double takes a nearest double |
| Float64.TiesToEven | internal/driver/controller.go:282 | Halfway between two doubles the even one is taken |
| Float64.RoundedIsRepresentable | internal/driver/controller.go:282 | Its result is a double, and the integer itself exactly if that is one |

## Left out

- HTTP, TLS, JSON text, gRPC, logging, configuration, capability lists, node labels and the lookup of a server by node name: plumbing; GET, PUT, attach and detach are backend steps here.
- Real mount, blkid, findmnt, udevadm, SCSI rescans and time: each is a call that may fail; what findmnt says about a path that is no mountpoint is not modelled, nor are the directories created for and removed from mount points.
- ControllerPublishVolume and ControllerUnpublishVolume: their effect is that of the move and the detach modelled here, behind argument checks.
- The node's check that a mount capability is given, and the keys under which it looks for a device path in the contexts: the path is a parameter of staging.
- NodeExpandVolume: one branch around an external program.
- Publishing and staging with concurrent calls to the node plugin: it takes no lock, and calls are modelled one at a time.
- Moves interleaved with resizes, and two moves of one volume at once: the code promises nothing there, because moves take no lock.
- The file name of a staging record: taken to be different for different trimmed volume ids (it holds 48 bits of a sha256 sum).
- Sorting of the candidate lists and the texts of errors: the order only shows in the text of an error.
- Idempotence.RetriesAgree: other requests whose name differs from this one only in surrounding space are left out, and expands whose disk is stored under this name; the controller issues neither, and PaddedNameNeverFound and History.RenamingExpandShares show what they do.
- Idempotence.RepeatedEnsure: the same requests and expands are left out.
- Idempotence.ConcurrentRetriesAgree: the same requests and expands are left out.
- ResizeClient.Client.LockServer: a mutex that is never released is left out; the call would wait for ever.
- Removal.SafeRemoval: for a mount source that does not exist and is not written in cleaned form, only the check the code makes (on the cleaned path) is stated.
- NodeStaging.UnstageRecovers: the delete node's write takes all paths of a disk away at once, and a disk without a delete node stays.
- RoundTrip.PayloadRoundTrip: about the JSON values, not their text; escapes of strings are not modelled.

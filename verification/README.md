# The control plane of FireCamp, in Dafny

FireCamp's manage service creates, scales, updates and deletes stateful services. Its state is in a
key-value store that offers create-if-absent and update-if-match only (`pkg/db/db.go:37-49`); every
operation is a sequence of such steps, may stop after any of them, may be retried, and may run next to
others. This project models that protocol and its allocators and proves what they keep.
`dafny verify dfyconfig.toml` checks all of it.

## How the model is built

There are two kinds of modules.

*State machines* (`DeviceRuns`, `MemberRuns`, `Lifecycle`, `ConfigUpdates`, `Tasks`) take one database or
cloud operation of one request as a step and quantify over every finite sequence of steps of any number
of requests: every interleaving, every stop, every lost reply (a step followed by a stop).

*Methods on the tables* (`Store`, `Cloud`, `Volumes`, `StaticIPs`, `ConfigFiles`, `ServiceDevices`, `Members`, `Creation`,
`Updates`, `Deletion`, `Tasks`, `NextIP`, `Devices` and the catalog modules) follow the source's loops and branches.
`Store.DB` has the six tables of `MemDB` as fields; any of its operations may fail with an internal error,
without effect or, when the store is `lossy`, with it, so the contract of a method speaks about every place
where an attempt can stop. A `reliable` store does not fail, and then the contracts say when a method succeeds.
`Cloud.Platform` has the volumes, what is attached, and what the container platform keeps for members; `Records` says
field by field what each update of a record changes. `Creation` and `Deletion` are about one service at a time: what any number of
interrupted attempts leaves, what an attempt that succeeds leaves, and that nothing else changes.
`RoundTrip` puts creation and deletion together, complete or stopped anywhere, service after service;
`Interference` lets other services change the database between the attempts at a deletion.
`Running` takes over where a creation ends: whatever updates and scale-outs have done to a service, it can
be updated and scaled out again.

What is not code of the repository is a parameter: the MD5 function (its hex digest has no `-`; where IDs
must differ it is injective on the file names of one service), fresh UUIDs, the clock, the order
of listings, the outcome of cloud calls. An address is kept as its bytes.

## Where the code does not do what is asked of it

For each there is the exact condition under which the property holds, or exactly what is left, over all inputs; where
a run or an input is named as what happens, it is a lemma of its own with that run or input.

- `MemDB.UpdateServiceAttr` compares nothing, so on it a slow creation can undo a deletion
  (`Lifecycle.MemDBLosesUpdates`). It agrees with the DynamoDB version exactly when the record has not moved
  on (`Lifecycle.MemDBAgrees`). The lifecycle results are about the DynamoDB guard.
- `GetNextIP` tests the subnet before it increments, not after: it can return the first address outside
  (`NextIP.LeavesTheSubnet`); it returns an address of the subnet exactly when one on its chain is free
  (`NextIP.StaysInSubnet`). `createNextIP` drops the error of the search and offers the nil address to the cloud.
- A start address that ends in 255 makes the first candidate end in 0 (`NextIP.LastBytesUsable`).
- A creation retried with other contents, or with another file mode only, deletes version 0 of a config file
  under the references to it and makes it again (`ConfigUpdates.OtherContentsBreakRefs`). A creation keeps all
  references stored, at each of its steps, exactly when no referenced file of its names differs from what it
  brings in name, mode or checksum (`ConfigUpdates.OverwriteBreaks`).
- An update of a config file that stops between its new file and its swap blocks every later update with
  other contents (`ConfigUpdates.OrphanBlocksUpdate`). An update by itself changes something exactly when nothing
  else is stored as the next version (`ConfigUpdates.UpdateTakesEffect`).
- A deletion whose reply is lost after the member record is gone loses that member's volume IDs
  (`Deletion.LostReplyLosesVolume`). Over any number of attempts every volume is returned exactly when no attempt
  lost the reply for a member that has one (`Deletion.AllVolumesReturned`).
- Deletions go by name and do not look at the owner. When an attempt at "a" stops after its devices and "b" gets the
  device that is free again, the next attempt at "a" deletes the record of "b" (`Interference.RetryTakesDevice`). An
  attempt that succeeds takes nothing of others exactly when, at its start, its device names and held addresses
  are recorded for no other owner (`Interference.AttemptSpares`).
- Deleting a service whose creation had not got to its attr leaves its devices and config files
  (`RoundTrip.WithoutAttrThenDelete`), and deleting one whose creation had got to k members leaves the files stored
  for the next one (`RoundTrip.StoppedThenDelete`): these, and unheld addresses, are all that is left. The service can be created again,
  and takes the devices that were left (`RoundTrip.LeftDevicesAreUsed`).
- The device of a deleted service is used again only when it was the last one (`Devices.GapIsNotFilled`).
- Text options of a Redis service.conf with `=` or a line break do not survive printing and parsing, others do
  (`RedisConfig.PrintParse`, `RedisConfig.UpdateParse`).
- A replica of a Redis shard shares a zone with another one exactly when there are fewer zones than replicas
  (`RedisLayout.ReplicasAreSpread`). The MongoDB member lists name a member that is not generated exactly when
  there are no replicas or no config servers (`MongoLayout.ReplicaSetAgrees`, `MongoLayout.ConfigMembersAgree`).
- The ID of a negative config version does not give its version back (`ConfigFileIDs.VersionRoundTrip`).

## Model

| member | source | states |
|---|---|---|
| DeviceRuns.StepKeepsInv | pkg/managesvc/service.go:638-673 | one database operation of any run keeps: no gap in the device order, no two owners that differ in letter case only, at most two devices a service, and what every other run has listed or chosen |
| DeviceRuns.DevicesOfEveryRun | pkg/managesvc/service.go:603-673 | in every interleaving of runs that start, stop, lose replies and retry, the device table is an initial segment of the device order with one spelling per owner and at most two devices each |
| DeviceRuns.OnlySuccessorsAreTaken | pkg/managesvc/service.go:705-779 | every change of the table is one new record, of the successor of the current maximum, for a service no other owner's name collides with |
| DeviceRuns.CreationIsAtomic | pkg/managesvc/service.go:654-668 | a conditional create succeeds exactly when the table is still the one that was listed |
| DeviceRuns.PairsAgree | pkg/managesvc/service.go:603-636 | runs for one service that succeed return the same, distinct, recorded primary and journal devices |
| DeviceRuns.RunCompletes | pkg/managesvc/service.go:603-673 | from every reachable world, a run that nobody disturbs ends with its devices, unless the name is taken in other letter case or two more devices do not fit |
| DeviceRuns.TriesOfEveryRun | pkg/managesvc/service.go:638-673 | in every run of any number of creations, one that may still go on has lost fewer than three creations of a device to others |
| DeviceRuns.TakenMeanwhile | pkg/managesvc/service.go:638-673 | a creation of a device fails at the third try that another run was faster, not before, and a later device starts with three tries again |
| DeviceRuns.NameTakenFails | pkg/managesvc/service.go:638-652 | a run fails when the first device of its name, in lower case, is recorded for a service with another spelling |
| Devices.AssignDeviceName | pkg/managesvc/service.go:705-779 | the loop over the sorted listing computes the assignment that the next lemma characterises |
| Devices.AssignOutcome | pkg/managesvc/service.go:719-778 | for every table, with gaps or without, and any order of the listing: the service's first device if it has one, an error if the first owner with its name differs in case, the device after the last one in use otherwise, an error when the last one is used |
| Devices.OutcomeIsUnique | pkg/managesvc/service.go:719-778 | that characterisation leaves one result |
| Devices.SortedListing | pkg/managesvc/service.go:715-717 | the comparator puts any listing of any table into strictly ascending device order |
| Devices.GapIsNotFilled | pkg/managesvc/service.go:728-771 | with the first of two services deleted the next service gets the third device; the table has a gap |
| Devices.NextByIndex | pkg/server/loopserver.go:229-252 | the successor of a device name is the next of the 36 names, and the last has none |
| Devices.LessByIndex | pkg/server/loopserver.go:225-252 | the string order of the names is the device order |
| ServiceDevices.CreateDevice | pkg/managesvc/service.go:638-673 | in a table with gaps or without, one attempt finds the device that the service has, from an earlier attempt or left by a deletion, or takes the one after the last; it never takes a third; without faults it succeeds whenever one is left |
| ServiceDevices.CreateServiceVolumes | pkg/managesvc/service.go:603-636 | every attempt that succeeds returns the same pair, whatever earlier attempts recorded and whatever deletions left of other services or of this one; the primary device gets the primary volume and the journal device the journal volume, and without one there is neither |
| ServiceDevices.StillPicked | pkg/managesvc/service.go:719-771 | whichever of the two devices are recorded, the next assignment gives the one that the first attempt would have used |
| MemberRuns.MembersArePrefix | pkg/managesvc/service.go:856-942 | in every interleaving the stored members of a service are exactly those of its first k configs |
| MemberRuns.CreatorKnowsAll | pkg/managesvc/service.go:860-942 | a run that creates a member has listed or created every member that exists, and creates the next one |
| MemberRuns.StaticIPsAreUnique | pkg/managesvc/service.go:866-918 | in every interleaving, over all services with static IPs, no two members hold one IP, and each held IP is recorded for its member's service |
| MemberRuns.StaticIPsSuffice | pkg/managesvc/service.go:897-911 | in every interleaving a run that makes a member has an IP left for its zone: both internal errors are unreachable |
| MemberRuns.StepKeepsInv | pkg/managesvc/service.go:1276-1332 | one operation of any run keeps the above and every other run's pool: recorded, unused, distinct, in its zone |
| MemberRuns.RunCompletes | pkg/managesvc/service.go:856-942 | from every reachable world, a run that nobody disturbs makes all members it is to make, static IPs included as long as zones have addresses |
| MemberRuns.ScanCompletes | pkg/managesvc/service.go:1276-1332 | for any addresses listed in a zone, exactly those that no known member has and no other service has recorded join the pool, and all of these end up recorded for the service |
| Lifecycle.StepKeepsInv | pkg/managesvc/service.go:84-176 | one operation of any creation, scale-out, initialization, config or resource update or deletion keeps the history, the capacity and what every other request has read |
| Lifecycle.CapacityOfEveryRun | pkg/managesvc/server.go:434-472 | whenever the status is INITIALIZING or ACTIVE there is a member record for each replica, also after a scale-out stopped anywhere and next to a deletion |
| Lifecycle.NoLostUpdate | pkg/db/awsdynamodb/dynamodb_serviceattr.go:73-133 | each stored attr differs from its immediate predecessor in the status, the replicas, the resources or one config reference, and in nothing else; the revision counts the updates; status and replicas never go back |
| Lifecycle.HistoryIsMonotone | pkg/db/utils.go:156-236 | the same between any two values of the history, with the revision difference |
| Lifecycle.ChangesHaveACause | pkg/db/utils.go:179-236 | between any two values of the history the resources are the same unless a resource update came between, and the references are the same unless an update of one of them did |
| Lifecycle.NewValueIsTheTask | pkg/managesvc/server.go:389-468 | a value that a request adds is what that request asks for: the status, the replicas, the resources or the reference it brings |
| Lifecycle.FirstValueIsTheRequest | pkg/managesvc/service.go:806-829 | the first value is the one that a creation brings |
| Lifecycle.CreationCompletes | pkg/managesvc/service.go:84-176 | a creation that nobody disturbs comes to all its members and to INITIALIZING |
| Lifecycle.DeletionCompletes | pkg/managesvc/service.go:302-449 | so does a deletion to no member and no attr, from any state of the service |
| Lifecycle.UpdateCompletes | pkg/managesvc/server.go:389-468 | an update that nobody disturbs adds one value to the history, which differs from the last in the field of the update only |
| Lifecycle.MembersComplete | pkg/managesvc/service.go:856-942 | a creation or scale-out that nobody disturbs makes all members of its plan, with one change of the attr |
| Lifecycle.WriteHitsBase | pkg/db/awsdynamodb/dynamodb_serviceattr.go:76-96 | a guarded write that succeeds replaces the very value the request read |
| Lifecycle.StepExtendsHistory | pkg/db/awsdynamodb/dynamodb_serviceattr.go:73-133 | a stored value is never rewritten; a step adds at most one |
| Lifecycle.MemDBAgrees | pkg/db/memdb.go:187-199 | the unguarded update does what the guarded one does exactly when the stored revision is the one that was read |
| Lifecycle.MemDBLosesUpdates | pkg/db/memdb.go:187-199 | on the unguarded update DELETING is followed by INITIALIZING |
| ConfigUpdates.RefsOfEveryRun | pkg/managesvc/server.go:858-898 | over all interleavings and crashes of updates and of creations with the same contents, every reference has a stored file with the checksum it refers to |
| ConfigUpdates.DeletionsAreOlder | pkg/managesvc/server.go:875-895 | only a request that won the swap deletes a file, and only a version every reference has left behind |
| ConfigUpdates.StepKeepsInv | pkg/managesvc/server.go:1039-1086 | one operation of any update or creation keeps references, files and every other request's snapshot; no file is overwritten |
| ConfigUpdates.OverwriteBreaks | pkg/managesvc/service.go:975-1010 | one more creation, from any world with stored references, keeps them stored at every step and stop exactly when no referenced stored file differs in name, mode or checksum from what it brings, and a new owner has one checksum for each name |
| ConfigUpdates.OtherContentsBreakRefs | pkg/managesvc/service.go:991-1004 | from the empty world: a creation retried with another mode or checksum leaves, where it may stop, a reference without a file, and at its end one with another checksum if the checksums differ |
| ConfigUpdates.UpdateTakesEffect | pkg/managesvc/server.go:858-898 | an update by itself, from any world, swaps the reference and deletes the old file if and only if nothing else is stored as the next version; otherwise it changes no table, ever |
| ConfigUpdates.OrphanBlocksUpdate | pkg/managesvc/utils.go:31-59 | from the empty world: after an update that stopped before its swap, another one changes something exactly when it brings the same contents |
| ConfigUpdates.KeysStandForIDs | pkg/utils/utils.go:104-115 | the keys of that machine and the generated IDs correspond one to one, and the ID gives the version back |
| ConfigFileIDs.VersionRoundTrip | pkg/utils/utils.go:104-115 | for every prefix, hyphens included, the version is read back exactly when it is not negative |
| ConfigFileIDs.IDInjective | pkg/utils/utils.go:104-109 | an ID determines prefix, file and version |
| ConfigFileIDs.AnyIDInjective | pkg/utils/utils.go:104-109 | the same for versions of any sign, when hashes are not empty |
| ConfigFileIDs.NextVersionIsFresh | pkg/managesvc/server.go:861-867 | the ID of the next version is not that of any version so far, whoever generated it |
| ConfigFiles.CreateConfigFile | pkg/managesvc/utils.go:31-59 | the file is stored, or a stored one with the same checksum is recognised, or nothing changed; without faults one of the first two, unless another file is stored |
| ConfigFiles.CheckAndCreateConfigFile | pkg/managesvc/service.go:975-1010 | only the owner's IDs are written, with the contents that were asked for; every file keeps the checksum of its content; when what is stored matches, files are only added; on success, which is certain without faults, all are stored and the result refers to them |
| NextIP.GetNextIP | pkg/utils/utils.go:120-150 | terminates and returns the first unused candidate of the chain, or fails at the first candidate outside the subnet |
| NextIP.Bump | pkg/utils/utils.go:125-138 | the inner loop, in place, computes the successor |
| NextIP.NextIsLarger | pkg/utils/utils.go:125-138 | although a full byte is not reset by the carry, the successor is larger or has left IPv4 for good |
| NextIP.StopIsUnique | pkg/utils/utils.go:120-150 | there is one place for the search to stop |
| NextIP.StaysInSubnet | pkg/utils/utils.go:123-145 | the result is in the subnet exactly when some candidate on the chain is in it and unused |
| NextIP.NeverReturns | pkg/utils/utils.go:123-145 | once outside the subnet, no later candidate is inside |
| NextIP.LeavesTheSubnet | pkg/utils/utils.go:123-145 | from 10.0.0.254 in 10.0.0.0/24 the result is 10.0.4.254 |
| NextIP.LastBytesUsable | pkg/utils/utils.go:125-138 | every candidate's last byte is in 4..254 exactly when the start does not end in 255 |
| StaticIPs.GetUnassignedIPs | pkg/managesvc/service.go:1276-1332 | the result is exactly the addresses on the interfaces that no listed member has and no other service owns, each once, each with its record by now: the one it had or one of the interface it is on |
| StaticIPs.CreateNextIP | pkg/managesvc/service.go:1250-1274 | an unused address further on the chain, now on the interface; the first unused one if no interface has it; whatever else joined an interface is unused, too |
| StaticIPs.AddStaticIP | pkg/managesvc/service.go:1222-1244 | the address gets the record of this service, zone and interface, had none before, and joins the pool |
| StaticIPs.CreateStaticIPsForZone | pkg/managesvc/service.go:1166-1248 | all addresses there for the taking, and new ones up to the number asked for: no interface of the zone had them, as its primary address or another, and they are on the chain from the subnet's address; all are distinct and recorded; the new ones go to the interfaces in turn, those with the fewest addresses first; on a cloud that does not fail it returns the adopted ones whenever they suffice |
| StaticIPs.PendingReplicas | pkg/managesvc/service.go:1120-1145 | per zone the number of configs minus the number of members; an error exactly for a member in a zone without configs |
| StaticIPs.CreateStaticIPs | pkg/managesvc/service.go:1112-1164 | for every zone of the configs at least as many addresses as configs without a member; only records of the service are added; no address that is given out is a host's primary one of its zone, if none was before; it succeeds on a cloud that does not fail when every zone has enough to adopt |
| StaticIPs.ZonesDiffer | pkg/managesvc/service.go:1149-1161 | no address is in the pools of two zones |
| StaticIPs.Server.AssignStaticIP | pkg/server/awsec2/ec2.go:580-598 | an interface gets an address that no interface has; interfaces and addresses stay |
| Members.CheckAndCreateServiceMembers | pkg/managesvc/service.go:856-970 | for a new service or a running one with updated owners and files: whatever is there is found again, members are made for the next configs only, with the files asked for; pools do not run dry, referenced files stay stored; no volume comes to be held twice, and each is in its member's zone and as the service asked for; members' addresses are on interfaces of their zones; on success, which is certain without faults and with addresses to adopt, all replicas have their member and all volumes are there |
| Members.CreateServiceMember | pkg/managesvc/service.go:1012-1055 | the member of this config, if its name is free, with a volume for exactly the service's devices: the cloud made it in the member's zone as the service asked for, the primary and the journal volume are two, and nobody else holds either |
| Volumes.CreateVolume | pkg/managesvc/service.go:1057-1109 | a new volume of the asked kind and zone, or the one that the platform has for this member and device, and then the new one is deleted |
| Volumes.OtherStaysBacked | pkg/managesvc/service.go:1012-1109 | what members of one service get leaves every other service's volumes apart, known to the cloud and as asked for |
| Volumes.FewerStayBacked | pkg/managesvc/service.go:384-410 | so does whatever members and platform records go |
| Members.WaitForVolumes | pkg/managesvc/service.go:944-969 | success means that the cloud has every volume of every one of the members; on a cloud that does not fail that is enough |
| Members.NoPrimaryComesHeld | pkg/managesvc/service.go:1199-1206 | after members have been made, with static IPs, no member has the primary address of an interface of its zone |
| Members.ListingZones | pkg/managesvc/service.go:1120-1145 | after k members, the members of a zone are as many as its configs among the first k |
| Members.StillEnough | pkg/managesvc/service.go:897-918 | the zone of the next config has an address left, and after taking it every zone has enough for the rest |
| Members.NamesMakeValidPlan | pkg/utils/utils.go:100-109 | different names give different member keys and config file IDs |
| Creation.CreateService | pkg/managesvc/service.go:84-176 | one attempt, from what any number of attempts left: the database stays a part of one creation with one UUID, success means all of it is there at INITIALIZING, after that nothing changes, and no attempt takes its own earlier work for another's; no volume comes to be held twice; without faults an attempt with valid arguments, devices left and addresses to adopt succeeds |
| Creation.NothingIsPartial | pkg/managesvc/service.go:84-176 | the start of the induction over attempts: a database without the service is one that attempts may leave |
| Creation.CheckAndCreateServiceAttr | pkg/managesvc/service.go:781-853 | stores the attr at CREATING or finds it; a stored attr is not written; the outcome is decided by the stored attr alone: refused as another service exactly when it differs from the request in more than status, revision and time, else by its status |
| Creation.CreateServiceItem | pkg/managesvc/service.go:675-703 | the UUID of the first attempt that stored one is the one every attempt uses |
| Creation.SetServiceInitialized | pkg/managesvc/service.go:179-232 | in any database: the only change is the attr from INITIALIZING to ACTIVE; without faults it succeeds exactly from these two; during a creation ACTIVE is reached from a complete one only |
| Creation.CompleteAgree | pkg/managesvc/service.go:84-176 | two complete creations of one request from one database agree up to UUID, volumes, addresses and times, however many attempts were interrupted |
| Creation.AttrAsRequested | pkg/managesvc/service.go:603-636 | the attr of a complete creation has, field by field, what the request asked for: names, types, replicas, resources, DNS, the volumes of its two devices, and references to version 0 of its files |
| Creation.MembersAsRequested | pkg/managesvc/service.go:1012-1055 | so have its members: zone, devices, default owner, references to version 0 of their files |
| Creation.FilesAsRequested | pkg/managesvc/service.go:975-1010 | and every file of the service and its members is stored with its name, mode, content and checksum |
| Creation.OthersAreKept | pkg/managesvc/service.go:84-176 | wherever the attempts stopped, records of other services are as before the first one |
| Updates.UpdateServiceConfigFile | pkg/managesvc/server.go:858-898 | the reference, and nothing else of the attr, moves to a stored file of the next version, and only on the attr that was read; the file has the old name and mode, the new checksum and, if this call stored it, the new content; only then is the old file deleted; no other file changes; wherever it stops, stored references stay stored; without faults it succeeds exactly when the attr is current and nothing else is the next version |
| Updates.UpdateMemberConfigFile | pkg/managesvc/server.go:1039-1086 | the same for a member and its guard |
| Updates.CreateNewFile | pkg/managesvc/server.go:860-873 | the file of the next version, created with the new content or found with its checksum; no other file changes; its ID is not the old one; without faults it fails exactly when something else is stored there |
| Updates.ScaleService | pkg/managesvc/server.go:420-472 | for a service new or running: members first, then the containers, then the attr, of which only the replicas change; wherever it stops there are as many members as the stored attr has replicas and all references are stored; replicas only go up, on the attr that was read; the members there were stay as they are; no volume comes to be held twice |
| Running.CompleteRuns | pkg/managesvc/service.go:84-176 | a complete creation is a running service with a member for each replica |
| Running.OwnerUpdateRuns | pkg/db/utils.go:408-424 | a guarded update of a member's owner keeps a running service one |
| Running.MemberFileUpdateRuns | pkg/managesvc/server.go:1039-1086 | an update of a member's config file, wherever it stops, keeps a running service one: every owner's references stay stored |
| Running.ServiceFileUpdateRuns | pkg/managesvc/server.go:858-898 | the same for a config file of the service |
| Running.ReplacedKeepsVolumes | pkg/db/utils.go:392-424 | updates of members leave it that no volume is held twice, each as asked for, and every address in its place |
| Running.RunsWithMore | pkg/managesvc/server.go:420-452 | a running service may be scaled out by any plan that begins with the names and zones of its members |
| Running.ScaledRuns | pkg/managesvc/server.go:452-472 | a scale-out, as far as it got, leaves a running service |
| Updates.UpdateServiceResource | pkg/managesvc/server.go:333-392 | exactly the given resources of the attr that was read, and nothing else of it; the platform has them before; without faults it succeeds exactly when the service is of that type and its maxima, where set, cover its reservations |
| ConfigFileIDs.NextDiffers | pkg/managesvc/server.go:861-867 | the ID generated next is not the old one, not even when the version wraps around |
| Store.DB.UpdateServiceMember | pkg/db/memdb.go:244-264 | replaced if the stored member is the old one but for its time |
| Deletion.DeleteService | pkg/managesvc/service.go:302-449 | with an attr or without, wherever an attempt stops only the service's own records are gone, in order, and not before the attr is at DELETING; it returns the volumes of exactly the members whose records went with a reply, none of them still attached; success leaves nothing of a service with an attr, and takes the service record of one without; without faults it succeeds exactly when there is a service record |
| Deletion.DeleteMembers | pkg/managesvc/service.go:384-410 | the records of the first listed members go, up to a fault; their volumes are returned, but those of a member whose reply is lost |
| Deletion.AllVolumesReturned | pkg/managesvc/service.go:302-449 | from the first attempt to the success: returned and lost volumes are what members had; every volume is returned as often as members have it if and only if no attempt lost the reply for a member with a volume; without lost replies that is always so |
| Deletion.EachReturnedOnce | pkg/managesvc/service.go:384-410 | as no volume is held twice, over all attempts each volume of a member is returned exactly once and nothing else is, but for one whose reply is lost |
| Deletion.LostReplyLosesVolume | pkg/managesvc/service.go:395-408 | two attempts that delete a member with a volume and return nothing |
| Deletion.SuccessLeavesNothing | pkg/managesvc/service.go:346-448 | no service, attr, member, referenced config file, held address or device of the service remains |
| Deletion.OthersUntouched | pkg/managesvc/service.go:302-449 | at any time every record that is not the service's is as it was |
| Deletion.DeleteDevices | pkg/managesvc/service.go:521-542 | the recorded primary and journal devices, and no others, are gone |
| Deletion.DetachVolumes | pkg/managesvc/service.go:471-519 | neither volume of the member is attached any more; nothing else is detached |
| RoundTrip.CreateThenDelete | pkg/managesvc/service.go:84-449 | creation, then deletion, each in any number of attempts, restores the database but for exactly the addresses recorded for the service and given to no member, and devices of the service that were there before and were used |
| RoundTrip.StoppedAnywhere | pkg/managesvc/service.go:84-176 | a creation stopped anywhere after its service record is one of the next two cases |
| RoundTrip.StoppedThenDelete | pkg/managesvc/service.go:84-449 | the same for a creation that stopped after its attr: exactly the next member's stored files are left, too |
| RoundTrip.WithoutAttrThenDelete | pkg/managesvc/service.go:312-321 | for one that stopped before its attr: the service record goes, its devices and files are left |
| RoundTrip.CreationKeepsNew | pkg/managesvc/service.go:728-771 | whatever a creation of one service left, the next service meets what its creation needs |
| RoundTrip.DeletionKeepsNew | pkg/managesvc/service.go:302-449 | so it does whatever a deletion left |
| RoundTrip.CanBeCreatedAgain | pkg/managesvc/service.go:84-449 | a creation stopped anywhere and deleted meets what a creation of the same service needs |
| RoundTrip.LeftDevicesAreUsed | pkg/managesvc/service.go:719-743 | the devices that a deletion without an attr left are the ones the next creation uses, and it takes no other |
| RoundTrip.CreatedCanBeDeleted | pkg/managesvc/service.go:302-340 | what a complete creation leaves meets what a deletion needs |
| Interference.AttemptSpares | pkg/managesvc/service.go:355-358 | an attempt that starts with its names recorded for no other owner takes no device or address of others, wherever it stops; one that succeeds, only then |
| Interference.AttemptsSpare | pkg/managesvc/service.go:302-449 | over all attempts, with any changes by others between them that record none of those names for another owner |
| Interference.TurnKeepsOwn | pkg/managesvc/service.go:521-542 | exactly a change that records one of the names for another owner ends it |
| Interference.CreationRetakes | pkg/managesvc/service.go:638-673 | the creation of another service is such a change exactly when it uses a device name of this one |
| Interference.RetryTakesDevice | pkg/managesvc/service.go:521-542 | the run in which the second attempt deletes the device record of another service |
| Store.DB.CreateDevice | pkg/db/memdb.go:47-61 | create-if-absent |
| Store.DB.UpdateServiceAttr | pkg/db/awsdynamodb/dynamodb_serviceattr.go:73-133 | the revision goes up by one, immutable fields stay, and the stored revision is the one that was read; otherwise refused |
| Records.AttrUpdates | pkg/db/utils.go:179-236 | each update of an attr changes its own field, revision and time, and no other field |
| Records.MemberUpdates | pkg/db/utils.go:392-424 | the same for a member's owner and references |
| Records.FileUpdates | pkg/db/utils.go:524-538 | the next version of a file has its name and mode and the new content under its checksum |
| Records.ComparedFields | pkg/db/utils.go:149-371 | the comparisons of attrs and members read all fields but those they are to skip |
| Records.AttrGuard | pkg/db/awsdynamodb/dynamodb_serviceattr.go:73-133 | the guarded write succeeds exactly on the next revision of an attr of the same immutable fields that is still stored; what each refusal means |
| Store.DB.CreateServiceMember | pkg/db/memdb.go:228-242 | create-if-absent under the member's own name |
| Store.DB.ListServiceMembers | pkg/db/memdb.go:279-293 | every member of the service once, in any order |
| Store.DB.ListDevices | pkg/db/memdb.go:97-108 | every device once, in any order |
| Store.DB.DeleteServiceMember | pkg/db/memdb.go:295-309 | the record is gone, or was not there |
| Store.DB.CreateConfigFile | pkg/db/memdb.go:311-325 | create-if-absent |
| Store.DB.CreateServiceStaticIP | pkg/db/memdb.go:358-372 | create-if-absent under the address |
| Tasks.TableMirrorsGoroutines | catalog/manageservice/catalogserviceinit.go:74-171 | in every interleaving of add, run and done, entries and live goroutines correspond one to one and there are at most 101 |
| Tasks.FinishRemovesOwn | pkg/managesvc/servertask.go:103-114 | a goroutine that finishes removes its own entry and no other |
| Tasks.BoundIsReached | pkg/managesvc/servertask.go:73-76 | every size up to 101 is reached |
| Tasks.TaskService.AddTask | pkg/managesvc/servertask.go:60-86 | stores and starts the task when its service has none and the table is not too large; otherwise nothing changes |
| Tasks.TaskService.TaskDone | pkg/managesvc/servertask.go:103-114 | removes the goroutine's own task |
| Tasks.TaskService.HasTask | pkg/managesvc/servertask.go:47-57 | what the goroutine last wrote into the task it shares with the table |
| RedisConfig.PrintParse | catalog/redis/rediscatalog.go:174-193 | parsing the printed service.conf gives the options back exactly when the text options are clean |
| RedisConfig.UpdateParse | catalog/redis/rediscatalog.go:340-377 | for clean options, parsing the updated text gives the options overridden by exactly the set fields, if and only if the update is clean |
| RedisConfig.UpdateIsPointwise | catalog/redis/rediscatalog.go:340-377 | first-substring replacement of each line replaces that setting and no other |
| RedisConfig.EnableAuth | catalog/redis/rediscatalog.go:260-262 | for clean options: authentication is off in the text exactly in cluster mode; the replacement switches it on and changes no other setting |
| RedisConfig.UpdateServiceConfigs | catalog/redis/rediscatalog.go:340-377 | the loop over the lines computes the replacement the lemmas are about |
| RedisConfig.ParseServiceConfigs | catalog/redis/rediscatalog.go:379-437 | the loop over the lines computes the parse the lemmas are about, errors included |
| RedisLayout.GenReplicaConfigs | catalog/redis/rediscatalog.go:206-243 | the nested loops write the layout, shard by shard |
| RedisLayout.MemberNumbers | catalog/redis/rediscatalog.go:249-252 | (shard, index) to member number is a bijection onto 0..shards*replicas |
| RedisLayout.MemberNamesAreSequential | catalog/redis/rediscatalog.go:206-252 | the k-th generated member is service-k |
| RedisLayout.MemberSettings | catalog/redis/rediscatalog.go:206-243 | member number k is told its zone, its host, k modulo the size of a shard as its place, and where to listen; its host is its master exactly at place 0 |
| RedisLayout.GenInitTaskEnv | catalog/redis/rediscatalog.go:285-331 | the two lists that the loop builds are the masters and the slaves of the layout, joined by commas |
| RedisLayout.MastersAndSlaves | catalog/redis/rediscatalog.go:285-331 | split again, the two lists partition the generated members, each at its own place, and every MASTER_MEMBER is its shard's entry in the masters list |
| RedisLayout.MastersAreBalanced | catalog/redis/rediscatalog.go:206-243 | master counts of any two zones differ by at most one |
| RedisLayout.ReplicasAreSpread | catalog/redis/rediscatalog.go:206-243 | a shard's replicas are in distinct zones exactly when there are at least as many zones |
| MongoLayout.GenReplicaConfigs | catalog/mongodb/mongodbcatalog.go:247-290 | the loops write the config servers and then the shards, or one replica set |
| MongoLayout.NamesAreDistinct | catalog/mongodb/mongodbcatalog.go:247-298 | no two generated members have one name |
| MongoLayout.ReplicaSets | catalog/mongodb/mongodbcatalog.go:247-320 | two members are in one replica set exactly when both are config servers or both are in one shard |
| MongoLayout.MemberSettings | catalog/mongodb/mongodbcatalog.go:247-320 | every member of a cluster is told its host, its role and where to listen |
| MongoLayout.MembersAreSpread | catalog/mongodb/mongodbcatalog.go:267-290 | members of one replica set, and the first members of successive shards, are in different zones as long as there are enough |
| MongoLayout.SetMemberSettings | catalog/mongodb/mongodbcatalog.go:251-262 | the same for a single replica set |
| MongoLayout.GenInitTaskEnv | catalog/mongodb/mongodbcatalog.go:337-398 | the lists that the loops build |
| MongoLayout.ShardMembersAgree | catalog/mongodb/mongodbcatalog.go:378-391 | splitting SHARD_MEMBERS on ';' then ',' gives the hosts of the generated shard members, shard by shard, in order |
| MongoLayout.ConfigMembersAgree | catalog/mongodb/mongodbcatalog.go:369-376 | the same for CONFIG_SERVER_MEMBERS, exactly when there is a config server |
| MongoLayout.ReplicaSetAgrees | catalog/mongodb/mongodbcatalog.go:357-365 | the same for a single replica set, exactly when it has a member |
| CassandraLayout.GenReplicaConfigs | catalog/cassandra/cascatalog.go:193-220 | the loop writes the round-robin layout |
| CassandraLayout.LayoutIsPrefix | catalog/cassandra/cascatalog.go:193-220 | the layout for n replicas is the beginning of the layout for more: scaling out changes no member there is |
| CassandraLayout.MemberSettings | catalog/cassandra/cascatalog.go:193-220 | every member is told its zone, its host and where to listen |
| CassandraLayout.ZonesAreBalanced | catalog/cassandra/cascatalog.go:207-217 | at every size the zones differ by at most one member |
| CassandraLayout.GenSeedHosts | catalog/cassandra/cascatalog.go:222-240 | the loop joins the hosts of the first members |
| CassandraLayout.SeedsAreSpread | catalog/cassandra/cascatalog.go:222-240 | the seed list splits into hosts of generated members in different zones |
| Naming.MemberNameInjective | pkg/utils/utils.go:100-102 | a member name determines service and index |
| Naming.DNSNameInjective | pkg/dns/utils.go:41-43 | in one domain a DNS name determines the member |

## Left out

- HTTP handlers, request decoding, API clients, the CLI, container platforms, DNS, logging, sleeps and polling:
  they do not change the tables. DNS errors are ignored by the code. Of the container platforms the model has what
  they keep: the number of containers, their resources, and the volume of a member.
- That a request reports an internal error of the database: the contracts say what may be stored and returned after one,
  not that the request stops there.
- The tags of a volume, and volumes that an attempt made and stopped before its member: nobody holds them.
- Volumes.CreateVolume: a platform that has a volume for the member need not tell. `K8sSvc.CreateServiceVolume` does not
  (pkg/containersvc/k8s/k8sservice.go:120-139): the error that tells is overwritten, and the member is stored with the new volume.
- StaticIPs.CreateStaticIPsForZone: does not say how many free addresses a subnet has, so not when new ones suffice;
  `MemberRuns.RunCompletes` takes it that a zone has one left.
- The concatenated string keys of MemDB: keys are pairs and there is one cluster.
- The dotted form of addresses: the model compares the bytes.
- Creation and deletion of one service name at the same time, and a UUID used again by a new attr: declared
  unsupported at pkg/managesvc/server.go:1264. `Lifecycle` is about one attr from its creation to its deletion.
- The system tables, hosted zones and the default domain of CreateService: they are there before the model starts.
- The volume and network plugins but for what they write: `Running` has their updates of a member's owner.
- Two whole creations of one service at the same time, as one theorem: `DeviceRuns`, `MemberRuns`, `Lifecycle` and
  `ConfigUpdates` each take any number of concurrent runs through one of its stages.
- `CopyConfigFile` drops the revision (pkg/db/utils.go:551-560); in the model a stored config file is read as it
  was written, as DynamoDB does.
- LoopServer.AssignStaticIP accepts an address that another interface has and GetNetworkInterfaces ignores the
  zone; the cloud of the model does neither.
- Creation.CreateService: one attempt at a time; concurrent creations are the business of the state machines.
- Creation.CompleteAgree: for a stateless service it needs one config per replica, which for other services the
  arguments are checked for.
- StaticIPs.CreateStaticIPs: a zone has at least one interface, else the source divides by zero; listed members'
  addresses have records, which is what MemberRuns.StaticIPsAreUnique keeps.
- ConfigUpdates.StepKeepsInv: versions are unbounded; `Updates` has the wrap-around after version 2^63-1.
- Updates.ScaleService: starts from the attr that was read; the check of the catalog service type comes before.
- MemberRuns.StaticIPsAreUnique: a listing has each address once and only addresses of its zone's subnet.
- Devices.AssignOutcome: names of the loop server, which have one length; for names of different lengths the
  comparator is not an order. The excluded device is none or one in the table.
- Running.MemberFileUpdateRuns: the service and its members have different names, and no hash of a file name is
  empty or has a hyphen.
- Settings of member.conf are records, not text, and redis.conf, cassandra.yaml and mongod.conf are not modelled.
- The status that is none of the five: statuses are an enumeration.
- The other catalogs (Kafka, ZooKeeper, Consul, Kibana, Logstash, CouchDB, PostgreSQL, Telegraf) repeat the round
  robin, and ElasticSearch's minimum master count is not a quorum of all eligible nodes.
- rollingRestartService's list of tasks, which is in bounds only while there are no more members than replicas.

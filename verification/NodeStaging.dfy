/**
 The node plugin's stage, unstage, publish and unpublish on mounts, staged
 device records and local devices, with a failure possible at every call.
 */
module NodeStaging {
  import opened Text

  // ------------------------------------------------------------------- state

  /** A disk behind a device name; it keeps its identity when it is removed and attached again. */
  type Disk = nat

  /** Whether the disk carries a filesystem, and how often mkfs was run on it. */
  datatype Content = Content(filesystem: bool, formats: nat)

  datatype Mount = Mount(source: string, disk: Disk)

  /**
   Mount table, staged-device records, the disk each device path names (several
   paths may name one disk), disk contents, the disks that have a delete node,
   and the filesystem that holds plain directories.
   */
  datatype Node = Node(
    mounts: map<string, Mount>,
    records: map<string, string>,
    paths: map<string, Disk>,
    disks: map<Disk, Content>,
    deletable: set<Disk>,
    root: Mount)

  predicate MountedAnywhere(n: Node, k: Disk) {
    exists p :: p in n.mounts && n.mounts[p].disk == k
  }

  /** No device path names the disk any more. */
  predicate Gone(n: Node, k: Disk) {
    forall d :: d in n.paths ==> n.paths[d] != k
  }

  /** Mounted disks are present under the path they were mounted from, and every named disk has contents. */
  predicate Coherent(n: Node) {
    && (forall p :: p in n.mounts ==> n.mounts[p].source in n.paths && n.paths[n.mounts[p].source] == n.mounts[p].disk)
    && (forall d :: d in n.paths ==> n.paths[d] in n.disks)
    && n.root.source in n.paths && n.paths[n.root.source] == n.root.disk && n.root.disk !in n.deletable
    && "" !in n.paths
  }

  // --------------------------------------------------------- faults and calls

  /** mkfs may be refused for its type, or fail having left a filesystem or not. */
  datatype Mkfs = MkfsOk | MkfsUnsupported | MkfsFailed(leaves: bool)

  datatype StageFaults = StageFaults(rescan: bool, wait: bool, mkdir: bool, mountTable: bool, probe: bool, mkfs: Mkfs,
    mount: bool, record: bool)

  datatype UnstageFaults = UnstageFaults(findmnt: bool, readRecord: bool, mountTable: bool, umount: bool, refuse: bool,
    settle: bool, forget: bool)

  datatype PublishFaults = PublishFaults(mkdir: bool, mountTable: bool, mount: bool, remount: bool)

  /** State after a call, and whether the call succeeded. */
  datatype Step = Step(node: Node, ok: bool)

  /** mkfs on a blank disk. */
  function Format(n: Node, k: Disk, mkfs: Mkfs): Step
    requires k in n.disks
  {
    var c := n.disks[k];
    match mkfs
    case MkfsUnsupported => Step(n, false)
    case MkfsOk => Step(n.(disks := n.disks[k := Content(true, c.formats + 1)]), true)
    case MkfsFailed(leaves) => Step(n.(disks := n.disks[k := Content(leaves, c.formats + 1)]), false)
  }

  /** Mounter.Stage: wait, probe the mount table, format only a blank disk, mount. */
  function StageDevice(n: Node, device: string, staging: string, readOnly: bool, f: StageFaults): Step
    requires Coherent(n)
  {
    if f.wait || device !in n.paths || f.mkdir || f.mountTable then Step(n, false)
    else if staging in n.mounts then Step(n, true)
    else
      var k := n.paths[device];
      if !readOnly && f.probe then Step(n, false)
      else
        var formatted := if readOnly || n.disks[k].filesystem then Step(n, true) else Format(n, k, f.mkfs);
        if !formatted.ok || f.mount then Step(formatted.node, false)
        else Step(formatted.node.(mounts := n.mounts[staging := Mount(device, k)]), true)
  }

  function BindMount(n: Node, source: string, target: string, readOnly: bool, f: PublishFaults): Step {
    if f.mkdir || f.mountTable then Step(n, false)
    else if target in n.mounts then Step(n, true)
    else if f.mount then Step(n, false)
    else
      var m := if source in n.mounts then n.mounts[source] else n.root;
      Step(n.(mounts := n.mounts[target := m]), !(readOnly && f.remount))
  }

  function Unmount(n: Node, target: string, tableFails: bool, umountFails: bool): Step {
    if tableFails then Step(n, false)
    else if target !in n.mounts then Step(n, true)
    else if umountFails then Step(n, false)
    else Step(n.(mounts := n.mounts - {target}), true)
  }

  /** A disk that is mounted is refused, one without a delete node is left alone; the final settle may fail. */
  function RemoveDevice(n: Node, device: string, refuse: bool, settleFails: bool): Step {
    if refuse then Step(n, false)
    else if device !in n.paths then Step(n, true)
    else
      var k := n.paths[device];
      if MountedAnywhere(n, k) then Step(n, false)
      else if k !in n.deletable then Step(n, true)
      else Step(n.(paths := map d | d in n.paths && n.paths[d] != k :: n.paths[d]), !settleFails)
  }

  // -------------------------------------------------------------- operations

  /** NodeStageVolume; `device` is the path of the publish context or the one discovery found, if it found one. */
  function NodeStageVolume(n: Node, volumeId: string, staging: string, device: Option<string>, f: StageFaults): Step
    requires Coherent(n)
  {
    var v, p := Trim(volumeId), Trim(staging);
    if v == "" || p == "" || f.rescan || device.None? then Step(n, false)
    else
      var staged := StageDevice(n, device.value, p, false, f);
      if !staged.ok then staged
      else if f.record || Trim(device.value) == "" then Step(staged.node, false)
      else Step(staged.node.(records := n.records[v := Trim(device.value)]), true)
  }

  /** What NodeUnstageVolume takes to be the device: the mounted source, else the record. */
  function UnstageSource(n: Node, v: string, p: string, f: UnstageFaults): string {
    if !f.findmnt && p in n.mounts && n.mounts[p].source != "" then n.mounts[p].source
    else if !f.readRecord && v in n.records then n.records[v]
    else ""
  }

  function Unstage(n: Node, v: string, p: string, f: UnstageFaults): Step {
    var source := UnstageSource(n, v, p, f);
    var unmounted := Unmount(n, p, f.mountTable, f.umount);
    if !unmounted.ok || source == "" then unmounted
    else
      var removed := RemoveDevice(unmounted.node, source, f.refuse, f.settle);
      if !removed.ok || f.forget then Step(removed.node, false)
      else Step(removed.node.(records := removed.node.records - {v}), true)
  }

  /** NodeUnstageVolume: unmount, then remove the device, then forget the record. */
  function NodeUnstageVolume(n: Node, volumeId: string, staging: string, f: UnstageFaults): Step {
    var v, p := Trim(volumeId), Trim(staging);
    if v == "" || p == "" then Step(n, false)
    else Unstage(n, v, p, f)
  }

  function NodePublishVolume(n: Node, volumeId: string, staging: string, target: string, readOnly: bool,
                             f: PublishFaults): Step {
    if Blank(volumeId) || Blank(staging) || Blank(target) then Step(n, false)
    else BindMount(n, Trim(staging), Trim(target), readOnly, f)
  }

  function NodeUnpublishVolume(n: Node, volumeId: string, target: string, f: UnstageFaults): Step {
    if Blank(volumeId) || Blank(target) then Step(n, false)
    else Unmount(n, Trim(target), f.mountTable, f.umount)
  }

  /** Where no device path is known, staging fails before it changes anything. */
  lemma StageNeedsDevice(n: Node, volumeId: string, staging: string, f: StageFaults)
    requires Coherent(n)
    ensures NodeStageVolume(n, volumeId, staging, None, f) == Step(n, false)
  {
  }

  // ----------------------------------------------------------- node histories

  /** Calls of the kubelet, and disks appearing under device paths that are not in use. */
  datatype Event =
    | Stage(volumeId: string, staging: string, device: Option<string>, stageFaults: StageFaults)
    | Unstaged(volumeId: string, staging: string, unstageFaults: UnstageFaults)
    | Publish(volumeId: string, staging: string, target: string, readOnly: bool, publishFaults: PublishFaults)
    | Unpublish(volumeId: string, target: string, unstageFaults: UnstageFaults)
    | Attach(aliases: set<string>, disk: Disk, content: Content, hasDelete: bool)

  /** A disk seen before keeps its contents when it is attached again. */
  function Attached(n: Node, aliases: set<string>, k: Disk, c: Content, hasDelete: bool): Node {
    n.(paths := (map a | a in aliases && a != "" :: k) + n.paths,
    disks := if k in n.disks then n.disks else n.disks[k := c],
    deletable := if hasDelete && k != n.root.disk then n.deletable + {k} else n.deletable)
  }

  /**
   An attached disk is there under each of its paths and mounted nowhere new; a
   disk seen before has the contents it had, and the root disk stays undeletable.
   */
  lemma AttachedDisk(n: Node, aliases: set<string>, k: Disk, c: Content, hasDelete: bool)
    ensures var n' := Attached(n, aliases, k, c, hasDelete);
            && (forall a :: a in aliases && a != "" ==> a in n'.paths && (a !in n.paths ==> n'.paths[a] == k))
            && (forall d :: d in n.paths ==> d in n'.paths && n'.paths[d] == n.paths[d])
            && k in n'.disks && n'.disks[k] == (if k in n.disks then n.disks[k] else c)
            && (k in n'.deletable <==> k in n.deletable || (hasDelete && k != n.root.disk))
            && n'.mounts == n.mounts && n'.records == n.records
  {
  }

  function Next(n: Node, e: Event): Node
    requires Coherent(n)
  {
    match e
    case Stage(v, p, d, f) => NodeStageVolume(n, v, p, d, f).node
    case Unstaged(v, p, f) => NodeUnstageVolume(n, v, p, f).node
    case Publish(v, p, t, ro, f) => NodePublishVolume(n, v, p, t, ro, f).node
    case Unpublish(v, t, f) => NodeUnpublishVolume(n, v, t, f).node
    case Attach(aliases, k, c, hasDelete) => Attached(n, aliases, k, c, hasDelete)
  }

  lemma RemoveCoherent(n: Node, device: string, refuse: bool, settleFails: bool)
    requires Coherent(n)
    ensures Coherent(RemoveDevice(n, device, refuse, settleFails).node)
  {
  }

  /** What staging a device can do: at most one mkfs, on a blank disk, and at most one mount, of that disk. */
  lemma StageDeviceFrame(n: Node, device: string, p: string, readOnly: bool, f: StageFaults)
    requires Coherent(n)
    ensures var n' := StageDevice(n, device, p, readOnly, f).node;
            && n'.paths == n.paths && n'.records == n.records && n'.deletable == n.deletable && n'.root == n.root
            && n'.disks.Keys == n.disks.Keys
            && (forall k :: k in n.disks && n'.disks[k] != n.disks[k] ==>
                  && p !in n.mounts && device in n.paths && n.paths[device] == k
                  && !n.disks[k].filesystem && n'.disks[k].formats == n.disks[k].formats + 1)
            && (n'.mounts == n.mounts
                || (p !in n.mounts && device in n.paths && n'.mounts == n.mounts[p := Mount(device, n.paths[device])]))
  {
  }

  lemma StageFrame(n: Node, volumeId: string, staging: string, device: Option<string>, f: StageFaults)
    requires Coherent(n)
    ensures var n' := NodeStageVolume(n, volumeId, staging, device, f).node;
            n' == n || (device.Some? && var m := StageDevice(n, device.value, Trim(staging), false, f).node;
                        n' == m.(records := n'.records))
  {
  }

  lemma StageCoherent(n: Node, volumeId: string, staging: string, device: Option<string>, f: StageFaults)
    requires Coherent(n)
    ensures Coherent(NodeStageVolume(n, volumeId, staging, device, f).node)
  {
    StageFrame(n, volumeId, staging, device, f);
    if device.Some? {
      StageDeviceFrame(n, device.value, Trim(staging), false, f);
    }
  }

  lemma UnstageCoherent(n: Node, v: string, p: string, f: UnstageFaults)
    requires Coherent(n)
    ensures Coherent(Unstage(n, v, p, f).node)
  {
    var u := Unmount(n, p, f.mountTable, f.umount).node;
    RemoveCoherent(u, UnstageSource(n, v, p, f), f.refuse, f.settle);
  }

  lemma AttachCoherent(n: Node, aliases: set<string>, k: Disk, c: Content, hasDelete: bool)
    requires Coherent(n)
    ensures Coherent(Attached(n, aliases, k, c, hasDelete))
  {
  }

  /** Mounted disks stay present under their source paths, whatever happens. */
  lemma NextCoherent(n: Node, e: Event)
    requires Coherent(n)
    ensures Coherent(Next(n, e))
  {
    match e
    case Stage(v, p, d, f) => StageCoherent(n, v, p, d, f);
    case Unstaged(v, p, f) => UnstageCoherent(n, Trim(v), Trim(p), f);
    case Publish(_, _, _, _, _) =>
    case Unpublish(_, _, _) =>
    case Attach(aliases, k, c, hasDelete) => AttachCoherent(n, aliases, k, c, hasDelete);
  }

  /** The node after a list of events. */
  function Run(n: Node, events: seq<Event>): Node
    requires Coherent(n)
    decreases |events|
  {
    if events == [] then n
    else
      NextCoherent(n, events[0]);
      Run(Next(n, events[0]), events[1..])
  }

  // ------------------------------------------------------------ data survival

  predicate HasFilesystem(n: Node, k: Disk) {
    k in n.disks && n.disks[k].filesystem
  }

  lemma UnstageKeepsDisks(n: Node, v: string, p: string, f: UnstageFaults)
    ensures Unstage(n, v, p, f).node.disks == n.disks
  {
  }

  /** Contents change only when a blank disk is staged at an unmounted path, by one mkfs. */
  lemma OnlyStagingFormats(n: Node, e: Event, k: Disk)
    requires Coherent(n) && k in n.disks
    ensures k in Next(n, e).disks
    ensures Next(n, e).disks[k] != n.disks[k] ==>
              && e.Stage? && e.device.Some? && e.device.value in n.paths && n.paths[e.device.value] == k
              && Trim(e.staging) !in n.mounts
              && !n.disks[k].filesystem && Next(n, e).disks[k].formats == n.disks[k].formats + 1
  {
    match e
    case Stage(v, p, d, f) =>
      StageFrame(n, v, p, d, f);
      if d.Some? {
        StageDeviceFrame(n, d.value, Trim(p), false, f);
      }
    case Unstaged(v, p, f) => UnstageKeepsDisks(n, Trim(v), Trim(p), f);
    case Publish(_, _, _, _, _) =>
    case Unpublish(_, _, _) =>
    case Attach(_, _, _, _) =>
  }

  /**
   Once a disk carries a filesystem it is never formatted again, over any events
   and faults, even across removal and re-attach.
   */
  lemma {:induction false} DataSurvives(n: Node, events: seq<Event>, k: Disk)
    requires Coherent(n) && HasFilesystem(n, k)
    ensures HasFilesystem(Run(n, events), k) && Run(n, events).disks[k] == n.disks[k]
    decreases |events|
  {
    if events != [] {
      NextCoherent(n, events[0]);
      OnlyStagingFormats(n, events[0], k);
      DataSurvives(Next(n, events[0]), events[1..], k);
    }
  }

  /** Staging a path that is already mounted changes neither mounts nor devices nor disks. */
  lemma RestageChangesNothing(n: Node, volumeId: string, staging: string, device: Option<string>, f: StageFaults)
    requires Coherent(n) && Trim(staging) in n.mounts
    ensures var n' := NodeStageVolume(n, volumeId, staging, device, f).node;
            n'.mounts == n.mounts && n'.paths == n.paths && n'.disks == n.disks && n'.deletable == n.deletable
  {
  }

  // ---------------------------------------------------------- crash recovery

  /** Volume v is staged at p from disk k: mounted from it, and recorded under a path that names it. */
  predicate StagedFrom(n: Node, v: string, p: string, k: Disk) {
    && p in n.mounts && n.mounts[p].disk == k
    && v in n.records && n.records[v] in n.paths && n.paths[n.records[v]] == k
  }

  /**
   A successful stage of device d means "staged from the disk d names" exactly
   when the staging path was not already mounted from some other disk.
   */
  lemma StageEstablishes(n: Node, volumeId: string, staging: string, d: string, f: StageFaults)
    requires Coherent(n) && Trimmed(d)
    requires NodeStageVolume(n, volumeId, staging, Some(d), f).ok
    ensures d in n.paths
    ensures var n' := NodeStageVolume(n, volumeId, staging, Some(d), f).node; var v, p := Trim(volumeId), Trim(staging);
            && v != "" && p != "" && v in n'.records && n'.records[v] == d && p in n'.mounts && n'.paths == n.paths
            && (StagedFrom(n', v, p, n.paths[d]) <==> (p in n.mounts ==> n.mounts[p].disk == n.paths[d]))
  {
  }

  /**
   A successful stage at an unmounted path leaves the disk of the device with a
   filesystem and mounts it there: mkfs ran once if the disk was blank, and else
   not at all.
   */
  lemma StageFormats(n: Node, volumeId: string, staging: string, d: string, f: StageFaults)
    requires Coherent(n) && NodeStageVolume(n, volumeId, staging, Some(d), f).ok && Trim(staging) !in n.mounts
    ensures d in n.paths && n.paths[d] in n.disks
    ensures var n', k := NodeStageVolume(n, volumeId, staging, Some(d), f).node, n.paths[d];
            && n'.mounts == n.mounts[Trim(staging) := Mount(d, k)]
            && n'.disks == n.disks[k := Content(true, n.disks[k].formats + if n.disks[k].filesystem then 0 else 1)]
  {
    var k := n.paths[d];
    if n.disks[k].filesystem {
      assert n.disks == n.disks[k := Content(true, n.disks[k].formats)];
    }
  }

  /** The call gets as far as looking at the mount table, and finds the path unmounted. */
  predicate ReachesDevice(n: Node, volumeId: string, staging: string, d: string, f: StageFaults) {
    && !Blank(volumeId) && !Blank(staging) && d in n.paths && Trim(staging) !in n.mounts
    && !f.rescan && !f.wait && !f.mkdir && !f.mountTable
  }

  /**
   Staging runs mkfs exactly on a disk that was probed blank, and mounts exactly
   when the disk carries a filesystem by then or mkfs succeeded.
   */
  lemma StageTouches(n: Node, volumeId: string, staging: string, d: string, f: StageFaults)
    requires Coherent(n) && ReachesDevice(n, volumeId, staging, d, f)
    ensures n.paths[d] in n.disks
    ensures var n', k := NodeStageVolume(n, volumeId, staging, Some(d), f).node, n.paths[d];
            var blank := !n.disks[k].filesystem;
            && (n'.disks != n.disks <==> !f.probe && blank && !f.mkfs.MkfsUnsupported?)
            && (n'.disks != n.disks ==>
                n'.disks == n.disks[k := Content(f.mkfs.MkfsFailed? ==> f.mkfs.leaves, n.disks[k].formats + 1)])
            && (n'.mounts != n.mounts <==> !f.probe && (blank ==> f.mkfs.MkfsOk?) && !f.mount)
  {
    var k := n.paths[d];
    var mounted := n.mounts[Trim(staging) := Mount(d, k)];
    assert Trim(staging) in mounted;
    assert n.disks[k := Content(f.mkfs.MkfsFailed? ==> f.mkfs.leaves, n.disks[k].formats + 1)][k] != n.disks[k];
  }

  /** Otherwise it touches neither mounts nor disks. */
  lemma StageStopsEarly(n: Node, volumeId: string, staging: string, d: string, f: StageFaults)
    requires Coherent(n) && !ReachesDevice(n, volumeId, staging, d, f)
    ensures var n' := NodeStageVolume(n, volumeId, staging, Some(d), f).node;
            n'.mounts == n.mounts && n'.disks == n.disks
  {
  }

  /**
   When staging succeeds: nothing fails, and at an unmounted path the disk is
   mounted; then, and only then, the trimmed device path is recorded.
   */
  lemma StageSucceedsExactly(n: Node, volumeId: string, staging: string, d: string, f: StageFaults)
    requires Coherent(n)
    ensures var staged := NodeStageVolume(n, volumeId, staging, Some(d), f);
            && (staged.ok <==>
                && !Blank(volumeId) && !Blank(staging) && d in n.paths && !Blank(d)
                && !f.rescan && !f.wait && !f.mkdir && !f.mountTable && !f.record
                && (Trim(staging) !in n.mounts ==>
                      !f.probe && (!n.disks[n.paths[d]].filesystem ==> f.mkfs.MkfsOk?) && !f.mount))
            && staged.node.records == (if staged.ok then n.records[Trim(volumeId) := Trim(d)] else n.records)
            && staged.node.paths == n.paths && staged.node.deletable == n.deletable && staged.node.root == n.root
  {
  }

  /**
   A successful publish at an unmounted target mounts there exactly what is
   mounted at the staging path; if nothing is, the node's own filesystem.
   */
  lemma PublishBinds(n: Node, volumeId: string, staging: string, target: string, readOnly: bool, f: PublishFaults)
    requires NodePublishVolume(n, volumeId, staging, target, readOnly, f).ok && Trim(target) !in n.mounts
    ensures var n' := NodePublishVolume(n, volumeId, staging, target, readOnly, f).node;
            && n' == n.(mounts := n'.mounts) && n'.mounts.Keys == n.mounts.Keys + {Trim(target)}
            && (forall p :: p in n.mounts ==> n'.mounts[p] == n.mounts[p])
            && n'.mounts[Trim(target)] == if Trim(staging) in n.mounts then n.mounts[Trim(staging)] else n.root
  {
  }

  /** When publishing succeeds, and that a target is mounted also when the read-only remount fails after it. */
  lemma PublishSucceedsExactly(n: Node, volumeId: string, staging: string, target: string, readOnly: bool,
                               f: PublishFaults)
    ensures var published, t := NodePublishVolume(n, volumeId, staging, target, readOnly, f), Trim(target);
            var given := !Blank(volumeId) && !Blank(staging) && !Blank(target) && !f.mkdir && !f.mountTable;
            && (published.ok <==> given && (t !in n.mounts ==> !f.mount && (readOnly ==> !f.remount)))
            && (t in published.node.mounts <==> t in n.mounts || (given && !f.mount))
            && (t in n.mounts || !given || f.mount ==> published.node == n)
  {
  }

  /**
   Stage, then publish: the target is mounted from the disk the staged device
   names, which carries a filesystem, exactly if the staging path was not mounted
   from another disk before.
   */
  lemma StageThenPublish(n: Node, volumeId: string, staging: string, d: string, f: StageFaults, target: string,
                         readOnly: bool, g: PublishFaults)
    requires Coherent(n) && Trimmed(d) && NodeStageVolume(n, volumeId, staging, Some(d), f).ok
    requires Trim(target) !in n.mounts && Trim(target) != Trim(staging)
    requires var staged := NodeStageVolume(n, volumeId, staging, Some(d), f).node;
             NodePublishVolume(staged, volumeId, staging, target, readOnly, g).ok
    ensures d in n.paths
    ensures var staged, k, p := NodeStageVolume(n, volumeId, staging, Some(d), f).node, n.paths[d], Trim(staging);
            var published := NodePublishVolume(staged, volumeId, staging, target, readOnly, g).node;
            && Trim(target) in published.mounts
            && (published.mounts[Trim(target)].disk == k <==> p in n.mounts ==> n.mounts[p].disk == k)
            && (p !in n.mounts ==> HasFilesystem(published, k) && published.mounts[Trim(target)] == Mount(d, k))
  {
    var staged := NodeStageVolume(n, volumeId, staging, Some(d), f).node;
    StageEstablishes(n, volumeId, staging, d, f);
    StageFrame(n, volumeId, staging, Some(d), f);
    StageDeviceFrame(n, d, Trim(staging), false, f);
    PublishBinds(staged, volumeId, staging, target, readOnly, g);
    if Trim(staging) !in n.mounts {
      StageFormats(n, volumeId, staging, d, f);
    }
  }

  /** Unpublishing takes the target's mount away and nothing else; a target that is not mounted is left alone. */
  lemma UnpublishUnbinds(n: Node, volumeId: string, target: string, f: UnstageFaults)
    ensures var after := NodeUnpublishVolume(n, volumeId, target, f);
            && (after.ok ==> after.node == n.(mounts := n.mounts - {Trim(target)}))
            && (!after.ok ==> after.node == n)
            && (after.ok <==> !Blank(volumeId) && !Blank(target) && !f.mountTable
                              && (Trim(target) in n.mounts ==> !f.umount))
  {
    if Trim(target) !in n.mounts {
      assert n.mounts - {Trim(target)} == n.mounts;
    }
  }

  /** Where recovery stands: unmounting and removal come first, the record goes last. */
  datatype Phase = Mounted | Unmounted | Removed | Forgotten

  predicate InPhase(n: Node, v: string, p: string, k: Disk, phase: Phase) {
    match phase
    case Mounted => StagedFrom(n, v, p, k)
    case Unmounted => p !in n.mounts && v in n.records && n.records[v] in n.paths && n.paths[n.records[v]] == k
    case Removed => p !in n.mounts && v in n.records && n.records[v] != "" && n.records[v] !in n.paths && Gone(n, k)
    case Forgotten => p !in n.mounts && v !in n.records && (k in n.deletable ==> Gone(n, k))
  }

  function Rank(phase: Phase): nat {
    match phase
    case Mounted => 0
    case Unmounted => 1
    case Removed => 2
    case Forgotten => 3
  }

  /** Does a retry move on? A stored record is assumed readable. */
  lemma UnstageAdvances(n: Node, v: string, p: string, k: Disk, phase: Phase, f: UnstageFaults) returns (phase': Phase)
    requires Coherent(n) && v != "" && InPhase(n, v, p, k, phase) && !f.readRecord
    ensures InPhase(Unstage(n, v, p, f).node, v, p, k, phase') && Rank(phase) <= Rank(phase')
    ensures Unstage(n, v, p, f).ok ==> phase' == Forgotten
  {
    var source := UnstageSource(n, v, p, f);
    var u := Unmount(n, p, f.mountTable, f.umount);
    var r := RemoveDevice(u.node, source, f.refuse, f.settle);
    phase' :=
      if !u.ok then phase
      else if phase.Forgotten? then Forgotten
      else if Unstage(n, v, p, f).ok then Forgotten
      else if source in n.paths && source !in r.node.paths then Removed
      else if phase.Mounted? then Unmounted
      else phase;
  }

  /** A node after a list of unstage attempts, and whether one of them succeeded. */
  function Attempts(n: Node, volumeId: string, staging: string, fs: seq<UnstageFaults>): Step
    decreases |fs|
  {
    if fs == [] then Step(n, false)
    else
      var first := NodeUnstageVolume(n, volumeId, staging, fs[0]);
      var rest := Attempts(first.node, volumeId, staging, fs[1..]);
      Step(rest.node, first.ok || rest.ok)
  }

  /**
   Crash recovery over any list of attempts: progress is never lost, the record
   is there until the disk is gone, and once an attempt succeeded the path is
   unmounted, the record is gone and so is the disk if it can be deleted.
   */
  lemma {:induction false} AttemptsAdvance(n: Node, volumeId: string, staging: string, k: Disk, phase: Phase,
                                           fs: seq<UnstageFaults>) returns (phase': Phase)
    requires Coherent(n) && !Blank(volumeId) && !Blank(staging) && InPhase(n, Trim(volumeId), Trim(staging), k, phase)
    requires forall i :: 0 <= i < |fs| ==> !fs[i].readRecord
    ensures InPhase(Attempts(n, volumeId, staging, fs).node, Trim(volumeId), Trim(staging), k, phase')
    ensures Rank(phase) <= Rank(phase') && (Attempts(n, volumeId, staging, fs).ok ==> phase' == Forgotten)
    decreases |fs|
  {
    if fs == [] {
      phase' := phase;
    } else {
      var first := NodeUnstageVolume(n, volumeId, staging, fs[0]);
      var middle := UnstageAdvances(n, Trim(volumeId), Trim(staging), k, phase, fs[0]);
      UnstageCoherent(n, Trim(volumeId), Trim(staging), fs[0]);
      phase' := AttemptsAdvance(first.node, volumeId, staging, k, middle, fs[1..]);
    }
  }

  lemma UnstageKeepsDeletable(n: Node, volumeId: string, staging: string, f: UnstageFaults)
    ensures NodeUnstageVolume(n, volumeId, staging, f).node.deletable == n.deletable
  {
  }

  lemma {:induction false} AttemptsKeepDeletable(n: Node, volumeId: string, staging: string, fs: seq<UnstageFaults>)
    ensures Attempts(n, volumeId, staging, fs).node.deletable == n.deletable
    decreases |fs|
  {
    if fs != [] {
      UnstageKeepsDeletable(n, volumeId, staging, fs[0]);
      AttemptsKeepDeletable(NodeUnstageVolume(n, volumeId, staging, fs[0]).node, volumeId, staging, fs[1..]);
    }
  }

  /** Without a volume id or a path nothing is unstaged. */
  lemma UnstageNeedsArguments(n: Node, volumeId: string, staging: string, f: UnstageFaults)
    requires Blank(volumeId) || Blank(staging)
    ensures NodeUnstageVolume(n, volumeId, staging, f) == Step(n, false)
  {
  }

  /** From a successful stage on: the record outlives the disk, and the first success cleans up completely. */
  lemma UnstageRecovers(n: Node, volumeId: string, staging: string, d: string, f: StageFaults, fs: seq<UnstageFaults>)
    requires Coherent(n) && Trimmed(d)
    requires NodeStageVolume(n, volumeId, staging, Some(d), f).ok
    requires Trim(staging) in n.mounts ==> d in n.paths && n.mounts[Trim(staging)].disk == n.paths[d]
    requires forall i :: 0 <= i < |fs| ==> !fs[i].readRecord
    ensures d in n.paths
    ensures var v, p, k := Trim(volumeId), Trim(staging), n.paths[d];
            var n' := NodeStageVolume(n, volumeId, staging, Some(d), f).node;
            var last := Attempts(n', volumeId, staging, fs);
            && (k in n.deletable && v !in last.node.records ==> Gone(last.node, k))
            && (last.ok ==> p !in last.node.mounts && v !in last.node.records)
            && (last.ok && k in n.deletable ==> Gone(last.node, k))
  {
    var v, p := Trim(volumeId), Trim(staging);
    StageEstablishes(n, volumeId, staging, d, f);
    StageCoherent(n, volumeId, staging, Some(d), f);
    StageFrame(n, volumeId, staging, Some(d), f);
    StageDeviceFrame(n, d, p, false, f);
    var n' := NodeStageVolume(n, volumeId, staging, Some(d), f).node;
    var phase := AttemptsAdvance(n', volumeId, staging, n.paths[d], Mounted, fs);
    AttemptsKeepDeletable(n', volumeId, staging, fs);
  }

  const NO_FAULTS := UnstageFaults(false, false, false, false, false, false, false)

  /** The disk is mounted at some other path than p. */
  predicate MountedElsewhere(n: Node, p: string, k: Disk) {
    exists q :: q in n.mounts && q != p && n.mounts[q].disk == k
  }

  lemma UnmountLeaves(n: Node, p: string, k: Disk)
    ensures MountedAnywhere(Unmount(n, p, false, false).node, k) <==> MountedElsewhere(n, p, k)
  {
    var u := Unmount(n, p, false, false).node;
    if q :| q in n.mounts && q != p && n.mounts[q].disk == k {
      assert q in u.mounts && u.mounts[q].disk == k;
    }
  }

  /** An attempt without faults succeeds exactly if the disk is removed already or mounted nowhere else. */
  lemma CleanAttemptSucceeds(n: Node, volumeId: string, staging: string, k: Disk, phase: Phase)
    requires Coherent(n) && !Blank(volumeId) && !Blank(staging) && InPhase(n, Trim(volumeId), Trim(staging), k, phase)
    ensures NodeUnstageVolume(n, volumeId, staging, NO_FAULTS).ok
       <==> phase.Removed? || phase.Forgotten? || !MountedElsewhere(n, Trim(staging), k)
  {
    UnmountLeaves(n, Trim(staging), k);
  }

  /** While the disk is mounted elsewhere, an attempt gets no further than the unmount, whatever fails. */
  lemma BusyAttempt(n: Node, v: string, p: string, k: Disk, phase: Phase, f: UnstageFaults)
    requires Coherent(n) && v != "" && InPhase(n, v, p, k, phase) && (phase.Mounted? || phase.Unmounted?)
    requires MountedElsewhere(n, p, k) && !f.readRecord
    ensures var after := Unstage(n, v, p, f);
            && !after.ok && after.node == n.(mounts := after.node.mounts) && MountedElsewhere(after.node, p, k)
            && InPhase(after.node, v, p, k, if p in after.node.mounts then Mounted else Unmounted)
  {
    var u := Unmount(n, p, f.mountTable, f.umount).node;
    var q :| q in n.mounts && q != p && n.mounts[q].disk == k;
    assert q in u.mounts && u.mounts[q].disk == k;
    assert MountedAnywhere(u, k);
  }

  /** No list of attempts succeeds while the disk is mounted elsewhere, and the disk and its record stay. */
  lemma {:induction false} BusyDiskStays(n: Node, volumeId: string, staging: string, k: Disk, phase: Phase,
                                         fs: seq<UnstageFaults>)
    requires Coherent(n) && !Blank(volumeId) && !Blank(staging) && InPhase(n, Trim(volumeId), Trim(staging), k, phase)
    requires (phase.Mounted? || phase.Unmounted?) && MountedElsewhere(n, Trim(staging), k)
    requires forall i :: 0 <= i < |fs| ==> !fs[i].readRecord
    ensures var last := Attempts(n, volumeId, staging, fs);
            !last.ok && last.node == n.(mounts := last.node.mounts) && MountedElsewhere(last.node, Trim(staging), k)
    decreases |fs|
  {
    if fs != [] {
      var v, p := Trim(volumeId), Trim(staging);
      var next := Unstage(n, v, p, fs[0]).node;
      BusyAttempt(n, v, p, k, phase, fs[0]);
      UnstageCoherent(n, v, p, fs[0]);
      BusyDiskStays(next, volumeId, staging, k, if p in next.mounts then Mounted else Unmounted, fs[1..]);
    }
  }

  /**
   The clean unstage of device d where the mounted disk is mounted nowhere else:
   it removes the disk that is mounted, and so leaves d present while its record
   is forgotten exactly if the path was mounted from another disk, or d cannot
   be deleted.
   */
  lemma StaleMountLeaks(n: Node, volumeId: string, staging: string, d: string)
    requires Coherent(n) && !Blank(volumeId) && !Blank(staging) && Trim(staging) in n.mounts
    requires Trim(volumeId) in n.records && n.records[Trim(volumeId)] == d && d in n.paths
    requires !MountedElsewhere(n, Trim(staging), n.mounts[Trim(staging)].disk)
    ensures var after, v, p := NodeUnstageVolume(n, volumeId, staging, NO_FAULTS), Trim(volumeId), Trim(staging);
            && after.ok && v !in after.node.records && p !in after.node.mounts
            && (n.mounts[p].disk in n.deletable ==> Gone(after.node, n.mounts[p].disk))
            && (d in after.node.paths <==> n.mounts[p].disk != n.paths[d] || n.paths[d] !in n.deletable)
            && (d in after.node.paths ==> after.node.paths[d] == n.paths[d])
  {
  }
}

/**
 The node plugin's calls as they run: each method changes the mount table, the
 staged-device records, the device paths or the disk contents in the order the
 code does, and is proved against the step functions of NodeStaging.
 */
module NodePlugin {
  import opened Text
  import opened NodeStaging

  class Plugin {
    var mounts: map<string, Mount>
    var records: map<string, string>
    var paths: map<string, Disk>
    var disks: map<Disk, Content>
    const deletable: set<Disk>
    const root: Mount

    function Now(): Node
      reads this
    {
      Node(mounts, records, paths, disks, deletable, root)
    }

    constructor (n: Node)
      ensures Now() == n
    {
      mounts, records, paths, disks := n.mounts, n.records, n.paths, n.disks;
      deletable, root := n.deletable, n.root;
    }

    /** mkfs on a disk that was probed blank. */
    method FormatDevice(k: Disk, mkfs: Mkfs) returns (ok: bool)
      requires k in disks
      modifies this`disks
      ensures Step(Now(), ok) == Format(old(Now()), k, mkfs)
    {
      if mkfs.MkfsUnsupported? {
        return false;
      }
      var leaves := mkfs.MkfsFailed? ==> mkfs.leaves;
      disks := disks[k := Content(leaves, disks[k].formats + 1)];
      ok := mkfs.MkfsOk?;
    }

    /** The mounter's Stage. */
    method StageAt(device: string, staging: string, readOnly: bool, f: StageFaults) returns (ok: bool)
      requires Coherent(Now())
      modifies this`disks, this`mounts
      ensures Step(Now(), ok) == StageDevice(old(Now()), device, staging, readOnly, f)
      ensures ok ==> staging in mounts && (staging !in old(mounts) ==> mounts[staging] == Mount(device, paths[device]))
      ensures ok && staging !in old(mounts) && !readOnly ==>
                var k := paths[device];
                disks == old(disks)[k := Content(true, old(disks)[k].formats + if old(disks)[k].filesystem then 0
                  else 1)]
      ensures mounts - {staging} == old(mounts) - {staging}
    {
      if f.wait || device !in paths {
        return false;
      }
      if f.mkdir || f.mountTable {
        return false;
      }
      if staging in mounts {
        return true;
      }
      var k := paths[device];
      if !readOnly {
        if f.probe {
          return false;
        }
        if !disks[k].filesystem {
          var formatted := FormatDevice(k, f.mkfs);
          if !formatted {
            return false;
          }
        }
      }
      if f.mount {
        return false;
      }
      mounts := mounts[staging := Mount(device, k)];
      ok := true;
    }

    /** The mounter's BindMount; binding a plain directory mounts the filesystem that holds it. */
    method Bind(source: string, target: string, readOnly: bool, f: PublishFaults) returns (ok: bool)
      modifies this`mounts
      ensures Step(Now(), ok) == BindMount(old(Now()), source, target, readOnly, f)
      ensures ok && target !in old(mounts) ==>
                mounts == old(mounts)[target := if source in old(mounts) then old(mounts)[source] else root]
      ensures ok ==> target in mounts
      ensures mounts - {target} == old(mounts) - {target}
    {
      if f.mkdir || f.mountTable {
        return false;
      }
      if target in mounts {
        return true;
      }
      if f.mount {
        return false;
      }
      mounts := mounts[target := if source in mounts then mounts[source] else root];
      ok := !readOnly || !f.remount;
    }

    /** The mounter's Unmount. */
    method UnmountAt(target: string, tableFails: bool, umountFails: bool) returns (ok: bool)
      modifies this`mounts
      ensures Step(Now(), ok) == Unmount(old(Now()), target, tableFails, umountFails)
      ensures ok ==> target !in mounts
      ensures mounts - {target} == old(mounts) - {target}
    {
      if tableFails {
        return false;
      }
      if target !in mounts {
        return true;
      }
      if umountFails {
        return false;
      }
      mounts := mounts - {target};
      ok := true;
    }

    /** The mounter's RemoveDevice: writing the delete node takes every path of the disk away. */
    method Remove(device: string, refuse: bool, settleFails: bool) returns (ok: bool)
      modifies this`paths
      ensures Step(Now(), ok) == RemoveDevice(old(Now()), device, refuse, settleFails)
      ensures forall d :: d in paths ==> d in old(paths) && paths[d] == old(paths)[d]
      ensures forall p :: p in mounts && device in old(paths) && mounts[p].disk == old(paths)[device] ==>
              paths == old(paths)
    {
      if refuse {
        return false;
      }
      if device !in paths {
        return true;
      }
      var k := paths[device];
      if exists p :: p in mounts && mounts[p].disk == k {
        return false;
      }
      if k !in deletable {
        return true;
      }
      paths := map d | d in paths && paths[d] != k :: paths[d];
      ok := !settleFails;
    }

    /** Stage the device, and only then write the record. */
    method StageVolume(volumeId: string, staging: string, device: Option<string>, f: StageFaults) returns (ok: bool)
      requires Coherent(Now())
      modifies this`disks, this`mounts, this`records
      ensures Step(Now(), ok) == NodeStageVolume(old(Now()), volumeId, staging, device, f)
      ensures ok ==> Trim(staging) in mounts && device.Some?
      ensures ok && Trim(staging) !in old(mounts) ==>
                && device.value in paths
                     && mounts == old(mounts)[Trim(staging) := Mount(device.value, paths[device.value])]
                && paths[device.value] in disks && disks[paths[device.value]].filesystem
      ensures ok ==> records == old(records)[Trim(volumeId) := Trim(device.value)]
      ensures !ok ==> records == old(records)
    {
      var v, p := Trim(volumeId), Trim(staging);
      if v == "" || p == "" {
        return false;
      }
      if f.rescan || device.None? {
        return false;
      }
      var staged := StageAt(device.value, p, false, f);
      if !staged {
        return false;
      }
      var recorded := Trim(device.value);
      if f.record || recorded == "" {
        return false;
      }
      records := records[v := recorded];
      ok := true;
    }

    /** Read the source, unmount, remove the device, and only then forget the record. */
    method UnstageVolume(volumeId: string, staging: string, f: UnstageFaults) returns (ok: bool)
      modifies this`mounts, this`paths, this`records
      ensures Step(Now(), ok) == NodeUnstageVolume(old(Now()), volumeId, staging, f)
      ensures ok ==> Trim(staging) !in mounts
      ensures records == old(records) || (ok && records == old(records) - {Trim(volumeId)})
    {
      var v, p := Trim(volumeId), Trim(staging);
      if v == "" || p == "" {
        return false;
      }
      ok := UnstageAt(v, p, f);
    }

    method UnstageAt(v: string, p: string, f: UnstageFaults) returns (ok: bool)
      modifies this`mounts, this`paths, this`records
      ensures Step(Now(), ok) == Unstage(old(Now()), v, p, f)
      ensures ok ==> p !in mounts
      ensures records == old(records) || (ok && records == old(records) - {v})
    {
      var source := SourceToClean(v, p, f);
      var unmounted := UnmountAt(p, f.mountTable, f.umount);
      if !unmounted {
        return false;
      }
      if source != "" {
        var removed := Remove(source, f.refuse, f.settle);
        if !removed {
          return false;
        }
        if f.forget {
          return false;
        }
        records := records - {v};
      }
      ok := true;
    }

    /** The mounted source, else the recorded device. */
    method SourceToClean(v: string, p: string, f: UnstageFaults) returns (source: string)
      ensures source == UnstageSource(Now(), v, p, f)
    {
      source := "";
      if !f.findmnt && p in mounts {
        source := mounts[p].source;
      }
      if source == "" {
        if !f.readRecord && v in records {
          source := records[v];
        }
      }
    }

    method PublishVolume(volumeId: string, staging: string, target: string, readOnly: bool, f: PublishFaults)
      returns (ok: bool)
      modifies this`mounts
      ensures Step(Now(), ok) == NodePublishVolume(old(Now()), volumeId, staging, target, readOnly, f)
      ensures ok ==> Trim(target) in mounts
      ensures ok && Trim(target) !in old(mounts) && Trim(staging) in old(mounts) ==>
                mounts == old(mounts)[Trim(target) := old(mounts)[Trim(staging)]]
    {
      if Blank(volumeId) || Blank(staging) || Blank(target) {
        return false;
      }
      ok := Bind(Trim(staging), Trim(target), readOnly, f);
    }

    method UnpublishVolume(volumeId: string, target: string, f: UnstageFaults) returns (ok: bool)
      modifies this`mounts
      ensures Step(Now(), ok) == NodeUnpublishVolume(old(Now()), volumeId, target, f)
      ensures ok ==> Trim(target) !in mounts
    {
      if Blank(volumeId) || Blank(target) {
        return false;
      }
      ok := UnmountAt(Trim(target), f.mountTable, f.umount);
    }
  }
}

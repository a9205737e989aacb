/**
 Removing a local device: which block device a path stands for, and when its
 delete node is written.
 */
module Removal {
  import opened Text
  import opened BlockDevices

  /** Refused or failed; nothing to delete; or a write to the delete node of a block device. */
  datatype Outcome = Refused | Nothing | Delete(name: string)

  /** The block directory of a name; one that is not there holds no files. */
  function Lookup(blocks: seq<Block>, name: string): (b: Block)
    ensures b.name == name
    ensures b in blocks || (b.delete == Absent && !b.partition && b.children == [])
  {
    if blocks == [] then Block(name, false, [], false, None, Absent, None)
    else if blocks[0].name == name then blocks[0]
    else Lookup(blocks[1..], name)
  }

  lemma {:induction false} LookupAt(blocks: seq<Block>, i: nat)
    requires i < |blocks|
    requires forall j, k :: 0 <= j < k < |blocks| ==> blocks[j].name != blocks[k].name
    ensures Lookup(blocks, blocks[i].name) == blocks[i]
  {
    if i > 0 {
      LookupAt(blocks[1..], i - 1);
    }
  }

  predicate UnderDev(resolved: string) {
    resolved == "/dev" || HasPrefix(resolved, "/dev/")
  }

  /** The line mounts the device itself or a name recognised as its partition. */
  predicate Uses(t: Tree, line: string, device: string) {
    var s := SourceOf(line);
    && s.Some?
    && (SameDevice(t, Resolve(t, s.value), device) || DevicePartition(Resolve(t, s.value), device))
  }

  predicate InUse(t: Tree, text: string, device: string) {
    var lines := Split(text, '\n');
    exists i :: 0 <= i < |lines| && Uses(t, lines[i], device)
  }

  /** The mount table can be trusted to say that the device is idle. */
  predicate Idle(t: Tree, device: string) {
    match t.mountInfo
    case Missing => true
    case Unreadable => false
    case Contents(text) => !InUse(t, text, device)
  }

  /**
   A device is idle without a mount table, or if the table can be read and no
   source in it resolves to the device or to a name that passes for its partition.
   */
  lemma IdleExactly(t: Tree, device: string)
    ensures Idle(t, device) <==>
            || t.mountInfo.Missing?
            || (t.mountInfo.Contents? && forall s :: Sources(t.mountInfo.text, s) ==>
                  var r := Resolve(t, s); Resolve(t, r) != Resolve(t, device) && !DevicePartition(r, device))
  {
    if t.mountInfo.Contents? {
      var text := t.mountInfo.text;
      var lines := Split(text, '\n');
      if i :| 0 <= i < |lines| && Uses(t, lines[i], device) {
        assert Sources(text, SourceOf(lines[i]).value);
      }
      forall s | Sources(text, s) && !InUse(t, text, device)
        ensures var r := Resolve(t, s); Resolve(t, r) != Resolve(t, device) && !DevicePartition(r, device)
      {
        var i :| 0 <= i < |lines| && SourceOf(lines[i]) == Some(s);
        assert !Uses(t, lines[i], device);
      }
    }
  }

  /** The path stands for the named block device, and that is a whole disk of a kind that may be removed. */
  predicate Removable(t: Tree, path: string, name: string) {
    var resolved := Resolve(t, Trim(path));
    && !Blank(path)
    && UnderDev(resolved) && name == Base(resolved)
    && name != "." && name != "/" && !Skipped(name)
    && !Lookup(t.blocks, name).partition && !Partitioned(Lookup(t.blocks, name))
  }

  /** Everything that has to hold of a path and of the block device it stands for, short of the delete node. */
  predicate Vetted(t: Tree, path: string, name: string) {
    Removable(t, path, name) && Idle(t, DevPath(name))
  }

  predicate SafeToRemove(t: Tree, path: string, name: string) {
    Vetted(t, path, name) && Lookup(t.blocks, name).delete == Present
  }

  lemma BlankPathRefused(t: Tree, path: string, name: string)
    requires AllSpace(path)
    ensures !Removable(t, path, name)
  {
    var i, j := TrimIsMiddle(path);
  }

  method RemovableBlockDeviceName(t: Tree, path: string) returns (name: Option<string>)
    ensures forall n :: name == Some(n) <==> Removable(t, path, n) && Lookup(t.blocks, n).delete != StatError
  {
    var devicePath := Trim(path);
    if devicePath == "" {
      return None;
    }
    var resolved := Resolve(t, devicePath);
    if resolved != "/dev" && !HasPrefix(resolved, "/dev/") {
      return None;
    }
    var base := Base(resolved);
    var skip := SkipBlockDevice(base);
    if base == "." || base == "/" || skip {
      return None;
    }
    var b := Lookup(t.blocks, base);
    if b.partition {
      return None;
    }
    var partitioned := HasPartitions(b);
    if partitioned || b.delete == StatError {
      return None;
    }
    return Some(base);
  }

  method AnyLineUses(t: Tree, lines: seq<string>, device: string) returns (used: bool)
    ensures used <==> exists i :: 0 <= i < |lines| && Uses(t, lines[i], device)
  {
    for i := 0 to |lines|
      invariant forall k :: 0 <= k < i ==> !Uses(t, lines[k], device)
    {
      var fields := Fields(lines[i]);
      if |fields| < 10 {
        continue;
      }
      var source := Resolve(t, fields[|fields| - 2]);
      if SameDevice(t, source, device) || DevicePartition(source, device) {
        assert Uses(t, lines[i], device);
        return true;
      }
    }
    return false;
  }

  method IsBlockDeviceMounted(t: Tree, name: string) returns (mounted: Option<bool>)
    ensures mounted == Some(false) <==> Idle(t, DevPath(name))
    ensures mounted == None <==> t.mountInfo.Unreadable?
  {
    if t.mountInfo.Missing? {
      return Some(false);
    }
    if t.mountInfo.Unreadable? {
      return None;
    }
    var used := AnyLineUses(t, Split(t.mountInfo.text, '\n'), DevPath(name));
    return Some(used);
  }

  /** The delete node is written exactly for a device that is safe to remove. */
  method RemoveDevice(t: Tree, path: string) returns (r: Outcome)
    ensures r.Delete? ==> SafeToRemove(t, path, r.name)
    ensures forall n :: SafeToRemove(t, path, n) ==> r == Delete(n)
    ensures r.Nothing? <==> exists n :: Vetted(t, path, n) && Lookup(t.blocks, n).delete == Absent
  {
    var name := RemovableBlockDeviceName(t, path);
    if name.None? {
      return Refused;
    }
    var mounted := IsBlockDeviceMounted(t, name.value);
    if mounted != Some(false) {
      return Refused;
    }
    assert Vetted(t, path, name.value);
    if Lookup(t.blocks, name.value).delete == Absent {
      return Nothing;
    }
    return Delete(name.value);
  }

  /** A path under the device root resolves to a plain name below some directory. */
  lemma ResolvedName(t: Tree, path: string)
    requires Sane(t) && UnderDev(Resolve(t, path))
    ensures IsName(Base(Resolve(t, path)))
    ensures exists front :: Resolve(t, path) == front + "/" + Base(Resolve(t, path))
  {
    var r := Resolve(t, path);
    assert Rooted(r) && r != "/";
    if path in t.links {
      assert Clean(r) == r;
      BaseOfClean(r);
    } else {
      CleanIsRooted(path);
      BaseOfClean(path);
    }
  }

  /** A path that exists, or is written without superfluous elements; mount tables hold such paths. */
  predicate Plain(t: Tree, s: string) {
    s in t.links || Clean(s) == s
  }

  /** A path that resolves to itself after one step is the device if its resolution is. */
  lemma NotTheDevice(t: Tree, s: string, device: string)
    requires Sane(t) && Plain(t, s)
    ensures SameDevice(t, Resolve(t, s), device) <==> SameDevice(t, s, device)
  {
    if s in t.links {
      assert Resolve(t, t.links[s]) == t.links[s];
    }
  }

  lemma NotASource(t: Tree, text: string, s: string, name: string)
    requires Sane(t) && Sources(text, s) && !InUse(t, text, "/dev/" + name)
    ensures Plain(t, s) ==> !SameDevice(t, s, "/dev/" + name)
    ensures forall k: nat :: Resolve(t, s) != PartitionName("/dev/" + name, k)
  {
    var lines := Split(text, '\n');
    var i :| 0 <= i < |lines| && SourceOf(lines[i]) == Some(s);
    assert !Uses(t, lines[i], "/dev/" + name);
    if Plain(t, s) {
      NotTheDevice(t, s, "/dev/" + name);
    }
    forall k: nat ensures Resolve(t, s) != PartitionName("/dev/" + name, k) {
      PartitionRecognised("/dev/" + name, k);
    }
  }

  /**
   Safe removal: the block device is a whole disk of no skipped kind, without
   partitions, and neither the device nor any of its partitions, however
   numbered, is a mount source.
   */
  lemma SafeRemoval(t: Tree, path: string, name: string)
    requires Sane(t) && SafeToRemove(t, path, name)
    ensures IsName(name) && DevPath(name) == "/dev/" + name
    ensures exists b :: b in t.blocks && b.name == name && !b.partition && !Partitioned(b) && !Skipped(name)
    ensures t.mountInfo != Unreadable
    ensures t.mountInfo.Contents? ==>
              forall s :: Sources(t.mountInfo.text, s) && Plain(t, s) ==> !SameDevice(t, s, "/dev/" + name)
    ensures t.mountInfo.Contents? ==>
              forall s, k: nat ::
                Sources(t.mountInfo.text, s) ==> Resolve(t, s) != PartitionName("/dev/" + name, k)
  {
    ResolvedName(t, Trim(path));
    DevPathOfName(name);
    var b := Lookup(t.blocks, name);
    assert b in t.blocks;
    if t.mountInfo.Contents? {
      forall s | Sources(t.mountInfo.text, s)
        ensures (Plain(t, s) ==> !SameDevice(t, s, "/dev/" + name)) && forall k: nat ::
                Resolve(t, s) != PartitionName("/dev/" + name, k)
      {
        NotASource(t, t.mountInfo.text, s, name);
      }
    }
  }

  lemma LastOfDirectChild(r: string, name: string)
    requires HasPrefix(r, "/dev/") && '/' !in r[5..] && IsName(name) && exists front :: r == front + "/" + name
    ensures Base(r) == r[5..]
  {
    var front :| r == front + "/" + name;
    assert r[|r| - 1] == name[|name| - 1];
    assert r == "/dev" + "/" + r[5..];
    AfterName("/dev", r[5..]);
  }

  /**
   Below a directory of the device root only the last element counts: the device
   removed is the one named exactly for direct children.
   */
  lemma RemovesWhatWasNamed(t: Tree, path: string, name: string)
    requires Sane(t) && SafeToRemove(t, path, name)
    ensures var r := Resolve(t, Trim(path));
            r == DevPath(name) <==> HasPrefix(r, "/dev/") && '/' !in r[5..]
  {
    var r := Resolve(t, Trim(path));
    ResolvedName(t, Trim(path));
    DevPathOfName(name);
    if HasPrefix(r, "/dev/") && '/' !in r[5..] {
      LastOfDirectChild(r, name);
    }
  }

  /** For a path that resolves to a device file directly below the root, only the block device itself matters. */
  lemma DirectDevice(t: Tree, path: string, name: string)
    requires IsName(name) && !Skipped(name) && Trimmed(path) && path != "" && Resolve(t, path) == DevPath(name)
    ensures var b := Lookup(t.blocks, name);
            SafeToRemove(t, path, name) <==>
              b.delete == Present && !b.partition && !Partitioned(b) && Idle(t, DevPath(name))
  {
    DevPathOfName(name);
    assert HasPrefix("/dev/" + name, "/dev/");
    assert "/"[0] == '/';
  }

  /** The case left out: a device file in a directory below the root lets the whole disk of the same name be removed. */
  lemma NestedPathRemovesNamesake(t: Tree, dir: string, name: string)
    requires Sane(t) && IsName(name) && Trimmed("/dev/" + dir + "/" + name)
    requires var p := "/dev/" + dir + "/" + name; p in t.links && t.links[p] == p
    requires var b := Lookup(t.blocks, name); b.delete == Present && !b.partition && !Partitioned(b)
    requires !Skipped(name) && Idle(t, DevPath(name))
    ensures var p := "/dev/" + dir + "/" + name; SafeToRemove(t, p, name) && Resolve(t, p) != DevPath(name)
  {
    var p := "/dev/" + dir + "/" + name;
    DevPathOfName(name);
    BaseOfJoin("/dev/" + dir, name);
    assert HasPrefix(p, "/dev/");
    assert name != "/" by {
      assert "/"[0] == '/';
    }
    assert |p| > |DevPath(name)|;
  }

  /** The line mounts the device itself or one of its partitions. */
  ghost predicate Mounts(t: Tree, line: string, device: string)
    requires device != ""
  {
    var s := SourceOf(line);
    s.Some? && (SameDevice(t, Resolve(t, s.value), device) || IsPartitionOf(Resolve(t, s.value), device))
  }

  /** The line mounts something whose name passes for a partition of the device but is none. */
  ghost predicate MountsNeighbour(t: Tree, line: string, device: string)
    requires device != ""
  {
    SourceOf(line).Some? && Misjudged(Resolve(t, SourceOf(line).value), device)
  }

  lemma UsesOrNeighbour(t: Tree, line: string, device: string)
    requires device != ""
    ensures Uses(t, line, device) <==> Mounts(t, line, device) || MountsNeighbour(t, line, device)
  {
    var s := SourceOf(line);
    if s.Some? {
      if k: nat :| Resolve(t, s.value) == PartitionName(device, k) {
        PartitionRecognised(device, k);
      }
    }
  }

  /** Some line of the table mounts the device or a partition of it. */
  ghost predicate InMountedUse(t: Tree, text: string, device: string)
    requires device != ""
  {
    var lines := Split(text, '\n');
    exists i :: 0 <= i < |lines| && Mounts(t, lines[i], device)
  }

  ghost predicate NeighbourMounted(t: Tree, text: string, device: string)
    requires device != ""
  {
    var lines := Split(text, '\n');
    exists i :: 0 <= i < |lines| && MountsNeighbour(t, lines[i], device)
  }

  lemma LinesInUse(t: Tree, lines: seq<string>, device: string)
    requires device != ""
    ensures (exists i :: 0 <= i < |lines| && Uses(t, lines[i], device))
       <==> (exists i :: 0 <= i < |lines| && Mounts(t, lines[i], device))
            || (exists i :: 0 <= i < |lines| && MountsNeighbour(t, lines[i], device))
  {
    forall i | 0 <= i < |lines|
      ensures Uses(t, lines[i], device) <==> Mounts(t, lines[i], device) || MountsNeighbour(t, lines[i], device)
    {
      UsesOrNeighbour(t, lines[i], device);
    }
  }

  lemma NeighbourInUse(t: Tree, text: string, device: string)
    requires device != ""
    ensures InUse(t, text, device) <==> InMountedUse(t, text, device) || NeighbourMounted(t, text, device)
  {
    LinesInUse(t, Split(text, '\n'), device);
  }

  /**
   The removal of a deletable disk that is mounted nowhere is refused exactly
   when a neighbour that passes for its partition is mounted.
   */
  lemma RefusedForNeighbour(t: Tree, path: string, name: string, device: string)
    requires Removable(t, path, name) && Lookup(t.blocks, name).delete == Present && t.mountInfo.Contents?
    requires device == DevPath(name) && device != "" && !InMountedUse(t, t.mountInfo.text, device)
    ensures !SafeToRemove(t, path, name) <==> NeighbourMounted(t, t.mountInfo.text, device)
  {
    NeighbourInUse(t, t.mountInfo.text, device);
  }

  /**
   The device root itself is vetted like a block device that bears its name, so
   its removal succeeds as long as there is none.
   */
  lemma RootItselfAccepted(t: Tree, path: string)
    requires !Blank(path) && Resolve(t, Trim(path)) == "/dev" && forall b :: b in t.blocks ==> b.name != "dev"
    ensures Vetted(t, path, "dev") <==> Idle(t, DevPath("dev"))
    ensures Lookup(t.blocks, "dev").delete == Absent
  {
    var p := "/dev";
    assert p == "" + "/" + "dev";
    BaseOfJoin("", "dev");
    assert !Skipped("dev") by {
      assert "dev"[0] == 'd' && "dev"[1] == 'e';
    }
  }
}

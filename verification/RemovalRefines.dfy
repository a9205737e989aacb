/**
 The removal of a device in the node's state machine is what the code does with
 the trees it reads: where they agree, vetting a path refuses every mounted
 disk, and the delete node is written exactly when the machine takes the disk
 away.
 */
module RemovalRefines {
  import opened Text
  import opened BlockDevices
  import opened Removal
  import N = NodeStaging

  /** The device path stands for a whole disk directly below the device root. */
  predicate WholeDisk(t: Tree, d: string) {
    && d != "" && Trimmed(d) && IsName(Base(Resolve(t, d))) && Resolve(t, d) == DevPath(Base(Resolve(t, d)))
    && !Skipped(Base(Resolve(t, d)))
    && !Lookup(t.blocks, Base(Resolve(t, d))).partition && !Partitioned(Lookup(t.blocks, Base(Resolve(t, d))))
  }

  function DeleteNode(t: Tree, d: string): Stat {
    Lookup(t.blocks, Base(Resolve(t, d))).delete
  }

  /** The trees show the node: its device paths, which of them name one disk, its mounts and its delete nodes. */
  predicate Shows(t: Tree, n: N.Node) {
    && t.mountInfo.Contents?
    && (forall d, e :: d in n.paths && e in n.paths ==> (n.paths[d] == n.paths[e] <==> Resolve(t, d) == Resolve(t, e)))
    && (forall p :: p in n.mounts ==> Sources(t.mountInfo.text, n.mounts[p].source))
    && (forall d :: d in n.paths ==> (n.paths[d] in n.deletable <==> DeleteNode(t, d) == Present))
  }

  lemma SourceInUse(t: Tree, text: string, s: string, device: string)
    requires Sources(text, s) && Resolve(t, Resolve(t, s)) == Resolve(t, device)
    ensures InUse(t, text, device)
  {
    var lines := Split(text, '\n');
    var i :| 0 <= i < |lines| && SourceOf(lines[i]) == Some(s);
    assert Uses(t, lines[i], device);
  }

  /** A mounted disk is in use, under whatever path it was mounted. */
  lemma MountedIsInUse(t: Tree, n: N.Node, d: string)
    requires Sane(t) && N.Coherent(n) && Shows(t, n) && d in n.paths && d in t.links && N.MountedAnywhere(n, n.paths[d])
    ensures !Idle(t, Resolve(t, d))
  {
    var p :| p in n.mounts && n.mounts[p].disk == n.paths[d];
    var s := n.mounts[p].source;
    assert Resolve(t, s) == Resolve(t, d) == t.links[d];
    SourceInUse(t, t.mountInfo.text, s, t.links[d]);
  }

  lemma VettedWholeDisk(t: Tree, d: string)
    requires WholeDisk(t, d)
    ensures Vetted(t, d, Base(Resolve(t, d))) <==> Idle(t, Resolve(t, d))
  {
    var name := Base(Resolve(t, d));
    DevPathOfName(name);
    assert HasPrefix("/dev/" + name, "/dev/");
    assert "/"[0] == '/';
  }

  /** The machine's step, by what the code finds. */
  lemma StepOf(n: N.Node, d: string, vetted: bool, settleFails: bool)
    requires d in n.paths && (N.MountedAnywhere(n, n.paths[d]) ==> !vetted)
    ensures var k := n.paths[d]; var step := N.RemoveDevice(n, d, !vetted, settleFails);
            var removed := vetted && k in n.deletable;
            && (N.Gone(step.node, k) <==> removed)
            && step.node == (if removed then n.(paths := step.node.paths) else n)
            && (forall e :: e in n.paths && n.paths[e] != k ==>
                e in step.node.paths && step.node.paths[e] == n.paths[e])
            && (step.ok <==> vetted && (removed ==> !settleFails))
  {
  }

  /**
   Refinement: a path that is not vetted is a refusal of the machine, which is
   certain for a mounted disk; for a vetted one the machine succeeds, and takes
   every path of the disk away exactly when the delete node is written.
   */
  lemma RemovalRefines(t: Tree, n: N.Node, d: string, settleFails: bool)
    requires Sane(t) && N.Coherent(n) && Shows(t, n) && d in n.paths && d in t.links && WholeDisk(t, d)
    ensures var k, name := n.paths[d], Base(Resolve(t, d));
            var vetted, safe := Vetted(t, d, name), SafeToRemove(t, d, name);
            var step := N.RemoveDevice(n, d, !vetted, settleFails);
            && (N.MountedAnywhere(n, k) ==> !vetted)
            && (N.Gone(step.node, k) <==> safe)
            && step.node == (if safe then n.(paths := step.node.paths) else n)
            && (forall e :: e in n.paths && n.paths[e] != k ==>
                e in step.node.paths && step.node.paths[e] == n.paths[e])
            && (step.ok <==> vetted && (safe ==> !settleFails))
  {
    var name := Base(Resolve(t, d));
    VettedWholeDisk(t, d);
    if N.MountedAnywhere(n, n.paths[d]) {
      MountedIsInUse(t, n, d);
    }
    assert n.paths[d] in n.deletable <==> DeleteNode(t, d) == Present;
    StepOf(n, d, Vetted(t, d, name), settleFails);
  }
}

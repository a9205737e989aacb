/**
 Finding the device path of an attached volume: scan the block directory up to
 twelve times and take a disk only when there is no doubt which one it is.
 */
module Discovery {
  import opened Text
  import opened Numerals
  import opened Float64
  import opened Wire
  import opened Sizes
  import opened BlockDevices
  import opened Removal

  const DISCOVERY_ATTEMPTS: nat := 12

  // ---------------------------------------------------------------- one scan

  /** A whole disk of a kind that may be staged, of the hinted size if there is a hint. */
  predicate Candidate(b: Block, hint: int) {
    && b.isDir && !Skipped(b.name) && !Partitioned(b)
    && (hint > 0 ==> b.size.Some? && BlockDeviceSizeGiB(b.size.value) == Some(hint))
  }

  /** The scan cannot tell whether this candidate is mounted, or whether it carries a filesystem. */
  predicate Unclear(t: Tree, b: Block, hint: int) {
    && Candidate(b, hint)
    && (MountedFrom(t, DevPath(b.name)).None? || (MountedFrom(t, DevPath(b.name)) == Some(false) && b.probe.None?))
  }

  predicate Usable(t: Tree, b: Block, hint: int, filesystem: bool) {
    Candidate(b, hint) && MountedFrom(t, DevPath(b.name)) == Some(false) && b.probe == Some(filesystem)
  }

  /** A scan that ends without an error. */
  predicate Scans(t: Tree, hint: int) {
    t.listable && forall i :: 0 <= i < |t.blocks| ==> !Unclear(t, t.blocks[i], hint)
  }

  predicate NoneUsable(t: Tree, hint: int, filesystem: bool) {
    forall i :: 0 <= i < |t.blocks| ==> !Usable(t, t.blocks[i], hint, filesystem)
  }

  predicate OnlyUsable(t: Tree, hint: int, filesystem: bool, i: nat) {
    && i < |t.blocks| && Usable(t, t.blocks[i], hint, filesystem)
    && forall j :: 0 <= j < |t.blocks| && Usable(t, t.blocks[j], hint, filesystem) ==> j == i
  }

  predicate ManyUsable(t: Tree, hint: int, filesystem: bool) {
    exists i, j :: 0 <= i < j < |t.blocks| && Usable(t, t.blocks[i], hint, filesystem)
      && Usable(t, t.blocks[j], hint, filesystem)
  }

  /** The first by-path link that resolves to the device, else the device path. */
  function StablePath(t: Tree, byPath: seq<string>, device: string): (p: string)
    ensures p == device || (p in byPath && p in t.links && t.links[p] == device)
  {
    if byPath == [] then device
    else if byPath[0] in t.links && t.links[byPath[0]] == device then byPath[0]
    else StablePath(t, byPath[1..], device)
  }

  /** The path taken is that of the first link that resolves to the device, and the plain one only without any. */
  lemma {:induction false} FirstLinkTaken(t: Tree, byPath: seq<string>, device: string, k: nat)
    requires k <= |byPath| && forall j :: 0 <= j < k ==> byPath[j] in t.links ==> t.links[byPath[j]] != device
    requires k < |byPath| ==> byPath[k] in t.links && t.links[byPath[k]] == device
    ensures StablePath(t, byPath, device) == if k < |byPath| then byPath[k] else device
  {
    if k > 0 {
      FirstLinkTaken(t, byPath[1..], device, k - 1);
    }
  }

  function PathOf(t: Tree, b: Block): string {
    StablePath(t, t.byPath, DevPath(b.name))
  }

  method StableDevicePath(t: Tree, name: string) returns (path: string)
    ensures path == StablePath(t, t.byPath, DevPath(name))
  {
    var device := DevPath(name);
    var i := 0;
    while i < |t.byPath|
      invariant 0 <= i <= |t.byPath|
      invariant StablePath(t, t.byPath, device) == StablePath(t, t.byPath[i..], device)
    {
      if t.byPath[i] in t.links && t.links[t.byPath[i]] == device {
        return t.byPath[i];
      }
      i := i + 1;
    }
    return device;
  }

  /** The values f has among the first n positions, in order. */
  function Collected(f: nat -> Option<string>, n: nat): seq<string> {
    if n == 0 then []
    else Collected(f, n - 1) + (if f(n - 1).Some? then [f(n - 1).value] else [])
  }

  /** Position i is the only one below n with a value. */
  predicate OnlyValue(f: nat -> Option<string>, i: nat, n: nat) {
    i < n && f(i).Some? && forall j: nat :: j < n && f(j).Some? ==> j == i
  }

  predicate ManyValues(f: nat -> Option<string>, n: nat) {
    exists i: nat, j: nat :: i < j < n && f(i).Some? && f(j).Some?
  }

  /** As many values are collected as there are positions with one. */
  lemma {:induction false} CollectedCounts(f: nat -> Option<string>, n: nat)
    ensures var l := Collected(f, n);
            && (l == [] ==> forall j: nat :: j < n ==> f(j).None?)
            && (|l| == 1 ==> exists i: nat :: OnlyValue(f, i, n) && l == [f(i).value])
            && (|l| > 1 ==> ManyValues(f, n))
  {
    if n > 0 {
      CollectedCounts(f, n - 1);
      if |Collected(f, n - 1)| == 1 {
        var i: nat :| OnlyValue(f, i, n - 1) && Collected(f, n - 1) == [f(i).value];
        assert f(n - 1).None? ==> OnlyValue(f, i, n);
      } else if Collected(f, n - 1) == [] && f(n - 1).Some? {
        assert OnlyValue(f, n - 1, n);
      }
    }
  }

  /** The path of entry i if it is usable. */
  function UsablePath(t: Tree, hint: int, filesystem: bool, i: nat): Option<string> {
    if i < |t.blocks| && Usable(t, t.blocks[i], hint, filesystem) then Some(PathOf(t, t.blocks[i])) else None
  }

  /** The paths of the usable disks among the first n entries. */
  function Listed(t: Tree, hint: int, filesystem: bool, n: nat): seq<string> {
    Collected((i: nat) => UsablePath(t, hint, filesystem, i), n)
  }

  /** The blank and the formatted disks of a scan, or None when it failed. */
  method ClassifyBlockDevices(t: Tree, hint: int) returns (r: Option<(seq<string>, seq<string>)>)
    ensures r.Some? <==> Scans(t, hint)
    ensures r.Some? ==>
              r.value.0 == Listed(t, hint, false, |t.blocks|) && r.value.1 == Listed(t, hint, true, |t.blocks|)
  {
    if !t.listable {
      return None;
    }
    var blank, formatted: seq<string> := [], [];
    for i := 0 to |t.blocks|
      invariant blank == Listed(t, hint, false, i) && formatted == Listed(t, hint, true, i)
      invariant forall k :: 0 <= k < i ==> !Unclear(t, t.blocks[k], hint)
    {
      var b := t.blocks[i];
      var skip := SkipBlockDevice(b.name);
      if !b.isDir || skip {
        continue;
      }
      var partitioned := HasPartitions(b);
      if partitioned {
        continue;
      }
      if hint > 0 {
        var size := if b.size.Some? then BlockDeviceSizeGiB(b.size.value) else None;
        if size != Some(hint) {
          continue;
        }
      }
      var mounted := IsMountedSource(t, DevPath(b.name));
      if mounted.None? {
        assert Unclear(t, b, hint);
        return None;
      }
      if mounted.value {
        continue;
      }
      if b.probe.None? {
        assert Unclear(t, b, hint);
        return None;
      }
      var path := StableDevicePath(t, b.name);
      if b.probe.value {
        formatted := formatted + [path];
      } else {
        blank := blank + [path];
      }
    }
    return Some((blank, formatted));
  }

  /** No candidate, or mounted, or usable. */
  predicate Known(t: Tree, b: Block, hint: int) {
    || !Candidate(b, hint) || MountedFrom(t, DevPath(b.name)) == Some(true)
    || Usable(t, b, hint, false) || Usable(t, b, hint, true)
  }

  /**
   A scan ends without an error exactly if the directory can be listed and every
   candidate is known to be mounted, or else to be blank, or to be formatted.
   */
  lemma ScansExactly(t: Tree, hint: int)
    ensures Scans(t, hint) <==>
            t.listable && forall b :: b in t.blocks ==> Known(t, b, hint)
  {
    forall b ensures Known(t, b, hint) <==> !Unclear(t, b, hint) {
      if Candidate(b, hint) && b.probe.Some? {
        assert b.probe == Some(b.probe.value);
        assert b.probe.value == true || b.probe.value == false;
      }
    }
    if forall b :: b in t.blocks ==> Known(t, b, hint) {
      forall i | 0 <= i < |t.blocks| ensures !Unclear(t, t.blocks[i], hint) {
        assert t.blocks[i] in t.blocks && Known(t, t.blocks[i], hint);
      }
    }
  }

  /**
   A usable disk may be formatted or mounted: it is of a kind that is touched, no
   entry of it holds a partition file, nothing is mounted from it, and with a
   size hint its sectors fill the hinted number of GiB.
   */
  lemma UsableIsSafe(t: Tree, b: Block, hint: int, filesystem: bool)
    requires Usable(t, b, hint, filesystem)
    ensures b.probe == Some(filesystem)
    ensures !HasPrefix(b.name, "loop") && !HasPrefix(b.name, "nbd") && !HasPrefix(b.name, "ram")
            && !HasPrefix(b.name, "zram") && !HasPrefix(b.name, "dm-") && !HasPrefix(b.name, "sr")
            && !HasPrefix(b.name, "fd")
    ensures forall c :: c in b.children && HasPrefix(c.name, b.name) ==> !c.partition
    ensures t.mountInfo.Contents? ==>
              forall s :: Sources(t.mountInfo.text, s) ==> Resolve(t, s) != Resolve(t, DevPath(b.name))
    ensures !t.mountInfo.Unreadable?
    ensures hint > 0 && ParseInt(Trim(b.size.value)).Some?
            && 0 <= ParseInt(Trim(b.size.value)).value * 512 <= TWO_63 - GIB ==>
              (hint - 1) * GIB < ParseInt(Trim(b.size.value)).value * 512 <= hint * GIB
  {
    SkippedExactly(b.name);
    MountedFromExactly(t, DevPath(b.name));
    if hint > 0 {
      SectorsRoundUp(b.size.value);
    }
  }

  // ---------------------------------------------------------- twelve attempts

  /** What an attempt meets: a cancelled wait, a failed rescan, and the trees it scans. */
  datatype Attempt = Attempt(slept: bool, rescanned: bool, tree: Tree)

  datatype Failure = Cancelled | RescanFailed | ScanFailed | ManyBlank | ManyFormatted | NoneFound

  /** An attempt that leaves the search going: an error, or no usable disk. */
  predicate Inconclusive(attempts: seq<Attempt>, hint: int, a: nat)
    requires a < |attempts|
  {
    var t := attempts[a].tree;
    || (a > 0 && !attempts[a].rescanned)
    || !Scans(t, hint)
    || (NoneUsable(t, hint, false) && (hint > 0 ==> NoneUsable(t, hint, true)))
  }

  /** The search gets as far as attempt a, and past its wait. */
  predicate Reaches(attempts: seq<Attempt>, hint: int, a: nat) {
    && a < |attempts|
    && (forall e :: 0 < e <= a ==> attempts[e].slept)
    && (forall e :: 0 <= e < a ==> Inconclusive(attempts, hint, e))
  }

  predicate ScansAt(attempts: seq<Attempt>, hint: int, a: nat) {
    Reaches(attempts, hint, a) && (a > 0 ==> attempts[a].rescanned) && Scans(attempts[a].tree, hint)
  }

  /** Disk i is the only blank one of scan a, or, with a size hint and no blank one, the only formatted one. */
  predicate FoundAt(attempts: seq<Attempt>, hint: int, a: nat, i: nat) {
    && ScansAt(attempts, hint, a)
    && var t := attempts[a].tree;
       || OnlyUsable(t, hint, false, i)
       || (hint > 0 && NoneUsable(t, hint, false) && OnlyUsable(t, hint, true, i))
  }

  /** Several disks of the deciding class: blank ones, or formatted ones with a size hint and no blank one. */
  predicate AmbiguousAt(attempts: seq<Attempt>, hint: int, a: nat, filesystem: bool) {
    && ScansAt(attempts, hint, a)
    && var t := attempts[a].tree;
       && ManyUsable(t, hint, filesystem)
       && (filesystem ==> hint > 0 && NoneUsable(t, hint, false))
  }

  /** The error an inconclusive attempt leaves behind. */
  function FailureAt(attempts: seq<Attempt>, hint: int, a: nat): Failure
    requires a < |attempts|
  {
    if a > 0 && !attempts[a].rescanned then RescanFailed
    else if !Scans(attempts[a].tree, hint) then ScanFailed
    else NoneFound
  }

  /** The search goes on after attempt a. */
  predicate GoesOn(attempts: seq<Attempt>, hint: int, a: nat) {
    Reaches(attempts, hint, a) && Inconclusive(attempts, hint, a)
  }

  predicate CancelledAt(attempts: seq<Attempt>, hint: int, a: nat) {
    && 0 < a < |attempts| && !attempts[a].slept
    && GoesOn(attempts, hint, a - 1)
  }

  /** The function that a scan collects. */
  ghost predicate Reads(f: nat -> Option<string>, t: Tree, hint: int, filesystem: bool) {
    forall i: nat :: f(i) == UsablePath(t, hint, filesystem, i)
  }

  lemma NoneIff(f: nat -> Option<string>, t: Tree, hint: int, filesystem: bool)
    requires Reads(f, t, hint, filesystem)
    ensures NoneUsable(t, hint, filesystem) <==> forall j: nat :: j < |t.blocks| ==> f(j).None?
  {
    forall j: nat | j < |t.blocks| ensures f(j).None? <==> !Usable(t, t.blocks[j], hint, filesystem) {
    }
  }

  lemma OnlyIff(f: nat -> Option<string>, t: Tree, hint: int, filesystem: bool, i: nat)
    requires Reads(f, t, hint, filesystem)
    ensures OnlyUsable(t, hint, filesystem, i) <==> OnlyValue(f, i, |t.blocks|)
    ensures OnlyUsable(t, hint, filesystem, i) ==> f(i) == Some(PathOf(t, t.blocks[i]))
  {
    forall j: nat | j < |t.blocks| ensures f(j).Some? <==> Usable(t, t.blocks[j], hint, filesystem) {
    }
  }

  lemma ManyIff(f: nat -> Option<string>, t: Tree, hint: int, filesystem: bool)
    requires Reads(f, t, hint, filesystem)
    ensures ManyUsable(t, hint, filesystem) <==> ManyValues(f, |t.blocks|)
  {
    forall j: nat | j < |t.blocks| ensures f(j).Some? <==> Usable(t, t.blocks[j], hint, filesystem) {
    }
  }

  /** The three cases exclude each other. */
  lemma CollectedDecides(f: nat -> Option<string>, n: nat)
    ensures var l := Collected(f, n);
            && (l == [] <==> forall j: nat :: j < n ==> f(j).None?)
            && (|l| == 1 <==> exists i: nat :: OnlyValue(f, i, n))
            && (|l| > 1 <==> ManyValues(f, n))
            && forall i: nat :: OnlyValue(f, i, n) ==> l == [f(i).value]
  {
    CollectedCounts(f, n);
  }

  lemma OnlyAllIff(f: nat -> Option<string>, t: Tree, hint: int, filesystem: bool)
    requires Reads(f, t, hint, filesystem)
    ensures forall i: nat :: OnlyUsable(t, hint, filesystem, i) <==> OnlyValue(f, i, |t.blocks|)
    ensures forall i: nat :: OnlyUsable(t, hint, filesystem, i) ==> f(i) == Some(PathOf(t, t.blocks[i]))
  {
    forall i: nat
      ensures OnlyUsable(t, hint, filesystem, i) <==> OnlyValue(f, i, |t.blocks|)
      ensures OnlyUsable(t, hint, filesystem, i) ==> f(i) == Some(PathOf(t, t.blocks[i]))
    {
      OnlyIff(f, t, hint, filesystem, i);
    }
  }

  lemma ReadDecides(f: nat -> Option<string>, t: Tree, hint: int, filesystem: bool)
    requires Reads(f, t, hint, filesystem)
    ensures var l := Collected(f, |t.blocks|);
            && (l == [] <==> NoneUsable(t, hint, filesystem))
            && (|l| == 1 <==> exists i: nat :: OnlyUsable(t, hint, filesystem, i))
            && (|l| > 1 <==> ManyUsable(t, hint, filesystem))
            && forall i: nat :: OnlyUsable(t, hint, filesystem, i) ==> l == [PathOf(t, t.blocks[i])]
  {
    CollectedDecides(f, |t.blocks|);
    NoneIff(f, t, hint, filesystem);
    ManyIff(f, t, hint, filesystem);
    OnlyAllIff(f, t, hint, filesystem);
  }

  /** How a scan's two lists decide. */
  lemma ListsDecide(t: Tree, hint: int, filesystem: bool)
    ensures var l := Listed(t, hint, filesystem, |t.blocks|);
            && (l == [] <==> NoneUsable(t, hint, filesystem))
            && (|l| == 1 <==> exists i: nat :: OnlyUsable(t, hint, filesystem, i))
            && (|l| > 1 <==> ManyUsable(t, hint, filesystem))
            && forall i: nat :: OnlyUsable(t, hint, filesystem, i) ==> l == [PathOf(t, t.blocks[i])]
  {
    var f := (i: nat) => UsablePath(t, hint, filesystem, i);
    ReadDecides(f, t, hint, filesystem);
  }

  /** The search gets to attempt a, and that has something to decide. */
  predicate Decides(attempts: seq<Attempt>, hint: int, a: nat) {
    Reaches(attempts, hint, a) && !Inconclusive(attempts, hint, a)
  }

  lemma FoundDecides(attempts: seq<Attempt>, hint: int, a: nat, i: nat)
    requires FoundAt(attempts, hint, a, i)
    ensures Decides(attempts, hint, a)
  {
    var t := attempts[a].tree;
    assert NoneUsable(t, hint, false) ==> hint > 0 && OnlyUsable(t, hint, true, i);
  }

  lemma AmbiguousDecides(attempts: seq<Attempt>, hint: int, a: nat, filesystem: bool)
    requires AmbiguousAt(attempts, hint, a, filesystem)
    ensures Decides(attempts, hint, a)
  {
  }

  /** Whatever a search gets past went on. */
  lemma WentOn(attempts: seq<Attempt>, hint: int, a: nat, b: nat)
    requires a < b && (Reaches(attempts, hint, b) || CancelledAt(attempts, hint, b))
    ensures GoesOn(attempts, hint, a)
  {
  }

  lemma DecidesOnce(attempts: seq<Attempt>, hint: int, a: nat, b: nat)
    requires Decides(attempts, hint, a) && Decides(attempts, hint, b)
    ensures a == b
  {
    if a < b {
      WentOn(attempts, hint, a, b);
    } else if b < a {
      WentOn(attempts, hint, b, a);
    }
  }

  lemma DecidesOrCancelled(attempts: seq<Attempt>, hint: int, a: nat, b: nat)
    requires CancelledAt(attempts, hint, b)
    ensures !Decides(attempts, hint, a)
  {
    if a < b {
      WentOn(attempts, hint, a, b);
    }
  }

  lemma OnlyOrMany(t: Tree, hint: int, filesystem: bool, i: nat)
    ensures OnlyUsable(t, hint, filesystem, i) ==> !ManyUsable(t, hint, filesystem) && !NoneUsable(t, hint, filesystem)
  {
  }

  /** A found disk leaves no doubt. */
  lemma FoundOrAmbiguous(attempts: seq<Attempt>, hint: int, a: nat, i: nat, filesystem: bool)
    requires FoundAt(attempts, hint, a, i)
    ensures !AmbiguousAt(attempts, hint, a, filesystem)
  {
    OnlyOrMany(attempts[a].tree, hint, false, i);
    OnlyOrMany(attempts[a].tree, hint, true, i);
  }

  /**
   What a search may answer: a path exactly when some reached attempt has a
   sole candidate, doubt exactly when one has several, cancellation exactly
   when a wait was cut short before that, and the last error otherwise.
   */
  ghost predicate Answers(attempts: seq<Attempt>, hint: int, path: string, err: Option<Failure>) {
    && (err.None? <==> exists a: nat, i: nat :: FoundAt(attempts, hint, a, i))
    && (err.None? ==> exists a: nat, i: nat ::
        FoundAt(attempts, hint, a, i) && path == PathOf(attempts[a].tree, attempts[a].tree.blocks[i]))
    && (err == Some(ManyBlank) <==> exists a: nat :: AmbiguousAt(attempts, hint, a, false))
    && (err == Some(ManyFormatted) <==> exists a: nat :: AmbiguousAt(attempts, hint, a, true))
    && (err in {Some(RescanFailed), Some(ScanFailed), Some(NoneFound)} ==>
        attempts != [] && err == Some(FailureAt(attempts, hint, |attempts| - 1)))
    && (err == Some(Cancelled) <==> exists a: nat :: CancelledAt(attempts, hint, a))
    && (err.Some? ==> path == "")
  }

  /** Where no attempt decides, there is neither a path nor doubt. */
  lemma NothingDecided(attempts: seq<Attempt>, hint: int)
    requires forall b: nat :: !Decides(attempts, hint, b)
    ensures forall b: nat, i: nat :: !FoundAt(attempts, hint, b, i)
    ensures forall b: nat, fs :: !AmbiguousAt(attempts, hint, b, fs)
  {
    forall b: nat, i: nat ensures !FoundAt(attempts, hint, b, i) {
      if FoundAt(attempts, hint, b, i) {
        FoundDecides(attempts, hint, b, i);
      }
    }
    forall b: nat, fs ensures !AmbiguousAt(attempts, hint, b, fs) {
      if AmbiguousAt(attempts, hint, b, fs) {
        AmbiguousDecides(attempts, hint, b, fs);
      }
    }
  }

  /** Where attempt a decides, it alone can give a path or doubt, and no wait is cut short. */
  lemma DecidedThere(attempts: seq<Attempt>, hint: int, a: nat)
    requires Decides(attempts, hint, a)
    ensures forall b: nat, i: nat :: FoundAt(attempts, hint, b, i) ==> b == a
    ensures forall b: nat, fs :: AmbiguousAt(attempts, hint, b, fs) ==> b == a
    ensures forall b: nat :: !CancelledAt(attempts, hint, b)
  {
    forall b: nat, i: nat | FoundAt(attempts, hint, b, i) ensures b == a {
      FoundDecides(attempts, hint, b, i);
      DecidesOnce(attempts, hint, a, b);
    }
    forall b: nat, fs | AmbiguousAt(attempts, hint, b, fs) ensures b == a {
      AmbiguousDecides(attempts, hint, b, fs);
      DecidesOnce(attempts, hint, a, b);
    }
    forall b: nat ensures !CancelledAt(attempts, hint, b) {
      if CancelledAt(attempts, hint, b) {
        DecidesOrCancelled(attempts, hint, a, b);
      }
    }
  }

  lemma AnswersCancelled(attempts: seq<Attempt>, hint: int, a: nat)
    requires 0 < a < |attempts| && GoesOn(attempts, hint, a - 1) && !attempts[a].slept
    ensures Answers(attempts, hint, "", Some(Cancelled))
  {
    assert CancelledAt(attempts, hint, a);
    forall b: nat ensures !Decides(attempts, hint, b) {
      DecidesOrCancelled(attempts, hint, b, a);
    }
    NothingDecided(attempts, hint);
  }

  lemma AnswersFound(attempts: seq<Attempt>, hint: int, a: nat, i: nat)
    requires FoundAt(attempts, hint, a, i)
    ensures Answers(attempts, hint, PathOf(attempts[a].tree, attempts[a].tree.blocks[i]), None)
  {
    FoundDecides(attempts, hint, a, i);
    DecidedThere(attempts, hint, a);
    FoundOrAmbiguous(attempts, hint, a, i, false);
    FoundOrAmbiguous(attempts, hint, a, i, true);
  }

  /** Blank and formatted disks are not in doubt at once. */
  lemma OneDoubt(attempts: seq<Attempt>, hint: int, a: nat)
    ensures !(AmbiguousAt(attempts, hint, a, false) && AmbiguousAt(attempts, hint, a, true))
  {
  }

  lemma AnswersMany(attempts: seq<Attempt>, hint: int, a: nat, filesystem: bool)
    requires AmbiguousAt(attempts, hint, a, filesystem)
    ensures Answers(attempts, hint, "", Some(if filesystem then ManyFormatted else ManyBlank))
  {
    AmbiguousDecides(attempts, hint, a, filesystem);
    DecidedThere(attempts, hint, a);
    forall i: nat ensures !FoundAt(attempts, hint, a, i) {
      if FoundAt(attempts, hint, a, i) {
        FoundOrAmbiguous(attempts, hint, a, i, filesystem);
      }
    }
    OneDoubt(attempts, hint, a);
  }

  lemma AnswersExhausted(attempts: seq<Attempt>, hint: int)
    requires attempts != [] && GoesOn(attempts, hint, |attempts| - 1)
    ensures Answers(attempts, hint, "", Some(FailureAt(attempts, hint, |attempts| - 1)))
  {
    var last := |attempts| - 1;
    forall b: nat ensures !Decides(attempts, hint, b) && !CancelledAt(attempts, hint, b) {
      if b < last {
        WentOn(attempts, hint, b, last);
      }
    }
    NothingDecided(attempts, hint);
  }

  lemma ScanFinds(attempts: seq<Attempt>, hint: int, a: nat, filesystem: bool)
    requires ScansAt(attempts, hint, a)
    requires var t := attempts[a].tree;
             |Listed(t, hint, filesystem, |t.blocks|)| == 1 && (filesystem ==> hint > 0 && NoneUsable(t, hint, false))
    ensures var t := attempts[a].tree;
            exists i: nat ::
              FoundAt(attempts, hint, a, i) && Listed(t, hint, filesystem, |t.blocks|)[0] == PathOf(t, t.blocks[i])
  {
    var t := attempts[a].tree;
    ListsDecide(t, hint, filesystem);
    var i: nat :| OnlyUsable(t, hint, filesystem, i);
    assert FoundAt(attempts, hint, a, i);
  }

  /** How one attempt ends: with an answer, or with the error it leaves behind. */
  datatype Verdict = Stop(path: string, err: Option<Failure>) | GoOn(lastErr: Failure)

  ghost predicate Concludes(attempts: seq<Attempt>, hint: int, a: nat, v: Verdict)
    requires a < |attempts|
  {
    match v
    case Stop(path, err) => Answers(attempts, hint, path, err)
    case GoOn(lastErr) => GoesOn(attempts, hint, a) && lastErr == FailureAt(attempts, hint, a)
  }

  /** What the two lists of a finished scan conclude. */
  lemma ScanConcludes(attempts: seq<Attempt>, hint: int, a: nat)
    requires ScansAt(attempts, hint, a)
    ensures var t := attempts[a].tree;
            var blank, formatted := Listed(t, hint, false, |t.blocks|), Listed(t, hint, true, |t.blocks|);
            && (|blank| == 1 ==> Answers(attempts, hint, blank[0], None))
            && (|blank| > 1 ==> Answers(attempts, hint, "", Some(ManyBlank)))
            && (blank == [] && hint > 0 && |formatted| == 1 ==> Answers(attempts, hint, formatted[0], None))
            && (blank == [] && hint > 0 && |formatted| > 1 ==> Answers(attempts, hint, "", Some(ManyFormatted)))
            && (blank == [] && (hint > 0 ==> formatted == []) ==> GoesOn(attempts, hint, a))
  {
    var t := attempts[a].tree;
    ListsDecide(t, hint, false);
    ListsDecide(t, hint, true);
    var blank, formatted := Listed(t, hint, false, |t.blocks|), Listed(t, hint, true, |t.blocks|);
    if |blank| == 1 || (blank == [] && hint > 0 && |formatted| == 1) {
      var filesystem := blank == [];
      ScanFinds(attempts, hint, a, filesystem);
      var i: nat :|
        FoundAt(attempts, hint, a, i) && Listed(t, hint, filesystem, |t.blocks|)[0] == PathOf(t, t.blocks[i]);
      AnswersFound(attempts, hint, a, i);
    } else if |blank| > 1 {
      AnswersMany(attempts, hint, a, false);
    } else if hint > 0 && |formatted| > 1 {
      AnswersMany(attempts, hint, a, true);
    }
  }

  /** The decision of one finished scan: a sole blank disk, else, with a size hint, a sole formatted one. */
  method DecideScan(attempts: seq<Attempt>, hint: int, a: nat, blank: seq<string>, formatted: seq<string>)
    returns (v: Verdict)
    requires ScansAt(attempts, hint, a) && (a > 0 ==> GoesOn(attempts, hint, a - 1))
    requires var t := attempts[a].tree;
             blank == Listed(t, hint, false, |t.blocks|) && formatted == Listed(t, hint, true, |t.blocks|)
    ensures Concludes(attempts, hint, a, v)
  {
    ScanConcludes(attempts, hint, a);
    if |blank| == 1 {
      return Stop(blank[0], None);
    }
    if |blank| > 1 {
      return Stop("", Some(ManyBlank));
    }
    if hint > 0 {
      if |formatted| == 1 {
        return Stop(formatted[0], None);
      }
      if |formatted| > 1 {
        return Stop("", Some(ManyFormatted));
      }
    }
    return GoOn(NoneFound);
  }

  lemma ReachesNext(attempts: seq<Attempt>, hint: int, a: nat)
    requires a < |attempts| && (a > 0 ==> GoesOn(attempts, hint, a - 1) && attempts[a].slept)
    ensures Reaches(attempts, hint, a)
  {
  }

  /** An attempt whose rescan or scan fails leaves the search going. */
  lemma FailedGoesOn(attempts: seq<Attempt>, hint: int, a: nat)
    requires Reaches(attempts, hint, a) && ((a > 0 && !attempts[a].rescanned) || !Scans(attempts[a].tree, hint))
    ensures GoesOn(attempts, hint, a)
  {
  }

  /** One attempt: wait and rescan unless it is the first, scan, decide. */
  method Try(attempts: seq<Attempt>, hint: int, a: nat) returns (v: Verdict)
    requires a < |attempts| && (a > 0 ==> GoesOn(attempts, hint, a - 1))
    ensures Concludes(attempts, hint, a, v)
  {
    if a > 0 {
      if !attempts[a].slept {
        AnswersCancelled(attempts, hint, a);
        return Stop("", Some(Cancelled));
      }
      ReachesNext(attempts, hint, a);
      if !attempts[a].rescanned {
        FailedGoesOn(attempts, hint, a);
        return GoOn(RescanFailed);
      }
    }
    var scan := ClassifyBlockDevices(attempts[a].tree, hint);
    if scan.None? {
      FailedGoesOn(attempts, hint, a);
      return GoOn(ScanFailed);
    }
    v := DecideScan(attempts, hint, a, scan.value.0, scan.value.1);
  }

  /** Discovery never guesses. */
  method DiscoverDevicePath(attempts: seq<Attempt>, hint: int) returns (path: string, err: Option<Failure>)
    requires |attempts| == 12
    ensures Answers(attempts, hint, path, err)
  {
    var lastErr: Option<Failure> := None;
    for a := 0 to DISCOVERY_ATTEMPTS
      invariant a > 0 ==> GoesOn(attempts, hint, a - 1) && lastErr == Some(FailureAt(attempts, hint, a - 1))
    {
      var v := Try(attempts, hint, a);
      if v.Stop? {
        return v.path, v.err;
      }
      lastErr := Some(v.lastErr);
    }
    AnswersExhausted(attempts, hint);
    return "", lastErr;
  }

  /** Which error the last attempt leaves, where no attempt gave an answer. */
  lemma LastErrorExactly(attempts: seq<Attempt>, hint: int, path: string, err: Option<Failure>)
    requires attempts != [] && Answers(attempts, hint, path, err)
    ensures var last := attempts[|attempts| - 1]; var rescanned := |attempts| == 1 || last.rescanned;
            var open := err.Some? && err.value !in {ManyBlank, ManyFormatted, Cancelled};
            && (err == Some(RescanFailed) <==> open && !rescanned)
            && (err == Some(ScanFailed) <==> open && rescanned && !Scans(last.tree, hint))
            && (err == Some(NoneFound) <==> open && rescanned && Scans(last.tree, hint))
  {
    if err.Some? && err.value !in {ManyBlank, ManyFormatted, Cancelled} {
      assert err.value.RescanFailed? || err.value.ScanFailed? || err.value.NoneFound?;
      assert err in {Some(RescanFailed), Some(ScanFailed), Some(NoneFound)};
    }
  }

  // ------------------------------------------------------ the directory mark

  /** Everything that makes a disk usable, except the mark of its entry as a directory. */
  predicate Fits(t: Tree, b: Block, hint: int, filesystem: bool) {
    && !Skipped(b.name) && !Partitioned(b)
    && (hint > 0 ==> b.size.Some? && BlockDeviceSizeGiB(b.size.value) == Some(hint))
    && MountedFrom(t, DevPath(b.name)) == Some(false) && b.probe == Some(filesystem)
  }

  /**
   The only fitting disk of the deciding class: the only blank one, or, with a
   size hint and no blank one, the only formatted one.
   */
  predicate OnlyFits(t: Tree, hint: int, filesystem: bool, i: nat) {
    && i < |t.blocks| && Fits(t, t.blocks[i], hint, filesystem)
    && (forall j :: 0 <= j < |t.blocks| && Fits(t, t.blocks[j], hint, filesystem) ==> j == i)
    && (filesystem ==> hint > 0 && forall j :: 0 <= j < |t.blocks| ==> !Fits(t, t.blocks[j], hint, false))
  }

  /** A disk that meets every other condition, alone, is found exactly if the listing marks its entry as a directory. */
  lemma FoundIffDirectory(attempts: seq<Attempt>, hint: int, a: nat, filesystem: bool, i: nat)
    requires ScansAt(attempts, hint, a) && OnlyFits(attempts[a].tree, hint, filesystem, i)
    ensures FoundAt(attempts, hint, a, i) <==> attempts[a].tree.blocks[i].isDir
  {
    var t := attempts[a].tree;
    forall j, fs | 0 <= j < |t.blocks|
      ensures Usable(t, t.blocks[j], hint, fs) <==> t.blocks[j].isDir && Fits(t, t.blocks[j], hint, fs)
    {
    }
    if t.blocks[i].isDir {
      assert OnlyUsable(t, hint, filesystem, i);
    }
  }

  lemma FoundIsCandidate(attempts: seq<Attempt>, hint: int, a: nat, i: nat)
    requires FoundAt(attempts, hint, a, i)
    ensures i < |attempts[a].tree.blocks| && Candidate(attempts[a].tree.blocks[i], hint)
  {
  }

  /** Where every entry is a symbolic link, as in the block directory of Linux, no search ever returns a path. */
  lemma SymbolicLinksNeverFound(attempts: seq<Attempt>, hint: int, path: string, err: Option<Failure>)
    requires forall a, i :: 0 <= a < |attempts| && 0 <= i < |attempts[a].tree.blocks| ==>
             !attempts[a].tree.blocks[i].isDir
    requires Answers(attempts, hint, path, err)
    ensures err.Some? && path == ""
  {
    forall a: nat, i: nat ensures !FoundAt(attempts, hint, a, i) {
      if FoundAt(attempts, hint, a, i) {
        FoundIsCandidate(attempts, hint, a, i);
      }
    }
  }

  // ---------------------------------------------------------------- afterwards

  /**
   A device that appears at some attempt is waited for, unless a wait is
   cancelled first; failed rescans do not end the wait.
   */
  method WaitForDevice(slept: seq<bool>, present: seq<bool>) returns (ok: bool)
    requires |slept| == |present| == 12
    ensures ok <==> exists a :: 0 <= a < 12 && present[a] && forall e :: 0 < e <= a ==> slept[e]
  {
    for a := 0 to DISCOVERY_ATTEMPTS
      invariant forall e :: 0 < e < a ==> slept[e]
      invariant forall e :: 0 <= e < a ==> !present[e]
    {
      if a > 0 && !slept[a] {
        return false;
      }
      if present[a] {
        return true;
      }
    }
    return false;
  }

  /**
   From discovery to removal: the discovered path stands for the disk that was
   found, so in a tree that still lists it, removing that path writes that
   disk's delete node exactly when it has one and is not in use.
   */
  lemma DiscoveredIsRemovable(attempts: seq<Attempt>, hint: int, a: nat, i: nat)
    requires FoundAt(attempts, hint, a, i) && Sane(attempts[a].tree)
    requires var t := attempts[a].tree; var path := PathOf(t, t.blocks[i]);
             && Trimmed(path) && path != "" && Resolve(t, DevPath(t.blocks[i].name)) == DevPath(t.blocks[i].name)
    ensures var t := attempts[a].tree; var b := t.blocks[i]; var path := PathOf(t, b);
            SafeToRemove(t, path, b.name) <==> b.delete == Present && !b.partition && Idle(t, DevPath(b.name))
  {
    var t := attempts[a].tree;
    var b := t.blocks[i];
    FoundIsCandidate(attempts, hint, a, i);
    DevPathOfName(b.name);
    LookupAt(t.blocks, i);
    DirectDevice(t, PathOf(t, b), b.name);
  }
}

/**
 What the node plugin reads from the node: path cleaning and resolution, the
 block directory, and the mount table text.
 */
module BlockDevices {
  import opened Text
  import opened Numerals

  // ------------------------------------------------------------------- paths

  /** A single path component that names something. */
  predicate IsName(s: string) {
    s != "" && '/' !in s && s != "." && s != ".."
  }

  /** One component of a path being cleaned lexically. */
  function Push(rooted: bool, done: seq<string>, part: string): seq<string> {
    if part == "" || part == "." then done
    else if part != ".." then done + [part]
    else if done != [] && done[|done| - 1] != ".." then done[..|done| - 1]
    else if rooted then done
    else done + [part]
  }

  function Reduce(rooted: bool, done: seq<string>, parts: seq<string>): seq<string>
    decreases |parts|
  {
    if parts == [] then done else Reduce(rooted, Push(rooted, done, parts[0]), parts[1..])
  }

  predicate Rooted(p: string) {
    p != "" && p[0] == '/'
  }

  function Components(p: string): seq<string> {
    Reduce(Rooted(p), [], Split(p, '/'))
  }

  /** filepath.Clean */
  function Clean(p: string): string {
    var parts := Components(p);
    if parts == [] then if Rooted(p) then "/" else "."
    else if Rooted(p) then "/" + Join(parts, '/')
    else Join(parts, '/')
  }

  function StripSlashes(p: string): string {
    if p != "" && p[|p| - 1] == '/' then StripSlashes(p[..|p| - 1]) else p
  }

  function AfterLastSlash(p: string): string {
    if p == "" || p[|p| - 1] == '/' then "" else AfterLastSlash(p[..|p| - 1]) + [p[|p| - 1]]
  }

  /** filepath.Base */
  function Base(p: string): string {
    if p == "" then "."
    else
      var name := AfterLastSlash(StripSlashes(p));
      if name == "" then "/" else name
  }

  predicate Names(parts: seq<string>) {
    forall k :: 0 <= k < |parts| ==> IsName(parts[k])
  }

  lemma {:induction false} ReduceNames(done: seq<string>, parts: seq<string>)
    requires Names(done) && forall k :: 0 <= k < |parts| ==> '/' !in parts[k]
    ensures Names(Reduce(true, done, parts))
    decreases |parts|
  {
    if parts != [] {
      ReduceNames(Push(true, done, parts[0]), parts[1..]);
    }
  }

  lemma {:induction false} AfterName(front: string, name: string)
    requires '/' !in name
    ensures AfterLastSlash(front + "/" + name) == name
  {
    var p := front + "/" + name;
    if name == "" {
      assert p[|p| - 1] == '/';
    } else {
      var n := |name| - 1;
      assert p[..|p| - 1] == front + "/" + name[..n];
      AfterName(front, name[..n]);
      assert name == name[..n] + [name[n]];
    }
  }

  lemma {:induction false} BaseOfJoin(front: string, name: string)
    requires IsName(name)
    ensures Base(front + "/" + name) == name
  {
    var p := front + "/" + name;
    assert p[|p| - 1] == name[|name| - 1];
    assert StripSlashes(p) == p;
    AfterName(front, name);
  }

  lemma {:induction false} JoinLast(parts: seq<string>) returns (front: string)
    requires |parts| >= 1
    ensures "/" + Join(parts, '/') == front + "/" + parts[|parts| - 1]
  {
    if |parts| == 1 {
      front := "";
      assert front + "/" == "/";
    } else {
      var rest := JoinLast(parts[1..]);
      front := "/" + parts[0] + rest;
      assert Join(parts, '/') == parts[0] + ("/" + Join(parts[1..], '/'));
    }
  }

  /** The last element of a cleaned absolute path other than the root is a plain name. */
  lemma BaseOfClean(p: string)
    requires Rooted(p) && Clean(p) != "/"
    ensures IsName(Base(Clean(p))) && exists front :: Clean(p) == front + "/" + Base(Clean(p))
  {
    JoinSplit(p, '/');
    var parts := Components(p);
    ReduceNames([], Split(p, '/'));
    var front := JoinLast(parts);
    var name := parts[|parts| - 1];
    assert IsName(name);
    BaseOfJoin(front, name);
  }

  predicate Parts(parts: seq<string>) {
    forall k :: 0 <= k < |parts| ==> parts[k] != "" && '/' !in parts[k]
  }

  lemma {:induction false} ReduceParts(done: seq<string>, parts: seq<string>)
    requires Parts(done) && forall k :: 0 <= k < |parts| ==> '/' !in parts[k]
    ensures Parts(Reduce(false, done, parts))
    decreases |parts|
  {
    if parts != [] {
      assert Parts(Push(false, done, parts[0]));
      ReduceParts(Push(false, done, parts[0]), parts[1..]);
    }
  }

  /** Cleaning does not turn a relative path into an absolute one. */
  lemma CleanIsRooted(p: string)
    ensures Rooted(Clean(p)) ==> Rooted(p)
  {
    if !Rooted(p) {
      JoinSplit(p, '/');
      ReduceParts([], Split(p, '/'));
      var parts := Components(p);
      if parts != [] {
        assert Join(parts, '/')[0] == parts[0][0];
        assert parts[0][0] in parts[0];
      }
    }
  }

  // ------------------------------------------------------ the laws of cleaning

  lemma {:induction false} SplitAppend(a: string, b: string)
    ensures Split(a + "/" + b, '/') == Split(a, '/') + Split(b, '/')
  {
    var s := a + "/" + b;
    if a == "" {
      assert s[1..] == b;
    } else {
      assert s[1..] == a[1..] + "/" + b;
      SplitAppend(a[1..], b);
    }
  }

  lemma {:induction false} ReduceAppend(rooted: bool, done: seq<string>, xs: seq<string>, ys: seq<string>)
    ensures Reduce(rooted, done, xs + ys) == Reduce(rooted, Reduce(rooted, done, xs), ys)
    decreases |xs|
  {
    if xs == [] {
      assert xs + ys == ys;
    } else {
      assert (xs + ys)[1..] == xs[1..] + ys;
      ReduceAppend(rooted, Push(rooted, done, xs[0]), xs[1..], ys);
    }
  }

  lemma ComponentsAppend(p: string, q: string)
    requires p != ""
    ensures Components(p + "/" + q) == Reduce(Rooted(p), Components(p), Split(q, '/'))
    ensures Rooted(p + "/" + q) == Rooted(p)
  {
    SplitAppend(p, q);
    ReduceAppend(Rooted(p), [], Split(p, '/'), Split(q, '/'));
  }

  /** A slash or a dot at the end does not matter, and a name is undone by the parent directory after it. */
  lemma CleanDrops(p: string, name: string)
    requires p != "" && IsName(name)
    ensures Clean(p + "/") == Clean(p) && Clean(p + "/.") == Clean(p)
    ensures Clean(p + "/" + name + "/..") == Clean(p)
  {
    assert p + "/" == p + "/" + "" && p + "/." == p + "/" + ".";
    ComponentsAppend(p, "");
    ComponentsAppend(p, ".");
    SplitWithout(".", '/');
    SplitWithout(name, '/');
    SplitWithout("..", '/');
    ComponentsAppend(p, name);
    ComponentsAppend(p + "/" + name, "..");
    assert Components(p + "/" + name) == Push(Rooted(p), Components(p), name);
    assert Components(p + "/" + name + "/..") == Push(Rooted(p), Components(p) + [name], "..") by {
      assert p + "/" + name + "/.." == p + "/" + name + "/" + "..";
    }
    assert (Components(p) + [name])[..|Components(p)|] == Components(p);
  }

  /** The parent directory of the root is the root. */
  lemma CleanAboveRoot(p: string)
    ensures Clean("/../" + p) == Clean("/" + p)
  {
    var up := "/..";
    assert "/../" + p == up + "/" + p;
    ComponentsAppend(up, p);
    SplitAppend("", "..");
    SplitWithout("..", '/');
    assert "" + "/" + ".." == up && Split(up, '/') == ["", ".."];
    assert [".."] == ["", ".."][1..];
    assert Push(true, [], "..") == [];
    assert Reduce(true, [], [".."]) == Reduce(true, [], []);
    assert Components(up) == [];
    assert "/" + p == "" + "/" + p;
    SplitAppend("", p);
    assert Split("", '/') + Split(p, '/') == [""] + Split(p, '/');
    ReduceAppend(true, [], [""], Split(p, '/'));
    assert Reduce(true, [], [""]) == Reduce(true, [], [""][1..]);
  }

  lemma {:induction false} ReduceBelow(done: seq<string>, parts: seq<string>)
    ensures Reduce(false, [".."] + done, parts) == [".."] + Reduce(false, done, parts)
    decreases |parts|
  {
    if parts != [] {
      assert Push(false, [".."] + done, parts[0]) == [".."] + Push(false, done, parts[0]) by {
        if parts[0] == ".." && done != [] && done[|done| - 1] != ".." {
          assert ([".."] + done)[..|done|] == [".."] + done[..|done| - 1];
        }
      }
      ReduceBelow(Push(false, done, parts[0]), parts[1..]);
    }
  }

  lemma {:induction false} ReduceDotless(done: seq<string>, parts: seq<string>)
    requires "." !in done
    ensures "." !in Reduce(false, done, parts)
    decreases |parts|
  {
    if parts != [] {
      ReduceDotless(Push(false, done, parts[0]), parts[1..]);
    }
  }

  /** Only a path without any component cleans to the dot. */
  lemma DotIsNoPath(p: string)
    requires !Rooted(p)
    ensures Clean(p) == "." <==> Components(p) == []
  {
    JoinSplit(p, '/');
    ReduceDotless([], Split(p, '/'));
    var parts := Components(p);
    ReduceParts([], Split(p, '/'));
    if |parts| > 1 {
      assert parts[0] != "" && |Join(parts, '/')| == |parts[0]| + 1 + |Join(parts[1..], '/')|;
    }
  }

  lemma ComponentsOfDots()
    ensures Components("..") == [".."] && Components(".") == [] && Components("") == []
  {
    SplitWithout("..", '/');
    SplitWithout(".", '/');
    assert Push(false, [], "..") == [".."];
    assert Components("..") == Reduce(false, [".."], [".."][1..]);
    assert Components(".") == Reduce(false, [], ["."][1..]);
    assert Components("") == Reduce(false, [], [""][1..]);
  }

  /** The parent directory of a relative path stays in front of what is cleaned. */
  lemma CleanRelative(p: string)
    requires p != "" && !Rooted(p)
    ensures Clean("../" + p) == if Clean(p) == "." then ".." else "../" + Clean(p)
  {
    assert "../" + p == ".." + "/" + p;
    ComponentsAppend("..", p);
    ComponentsOfDots();
    assert [".."] + [] == [".."];
    ReduceBelow([], Split(p, '/'));
    DotIsNoPath(p);
  }

  /** Nothing at all is the dot. */
  lemma CleanOfNothing()
    ensures Clean("") == "." && Clean(".") == "." && Clean("..") == ".."
  {
    ComponentsOfDots();
  }

  lemma {:induction false} ReduceOfNames(done: seq<string>, parts: seq<string>)
    requires Names(parts)
    ensures Reduce(true, done, parts) == done + parts
    decreases |parts|
  {
    if parts != [] {
      ReduceOfNames(done + [parts[0]], parts[1..]);
      assert done + [parts[0]] + parts[1..] == done + parts;
    }
  }

  lemma {:induction false} SplitOfJoin(parts: seq<string>)
    requires |parts| >= 1 && forall k :: 0 <= k < |parts| ==> '/' !in parts[k]
    ensures Split(Join(parts, '/'), '/') == parts
  {
    if |parts| == 1 {
      SplitWithout(parts[0], '/');
    } else {
      SplitOfJoin(parts[1..]);
      SplitWithout(parts[0], '/');
      SplitAppend(parts[0], Join(parts[1..], '/'));
      assert parts[0] + ['/'] + Join(parts[1..], '/') == parts[0] + "/" + Join(parts[1..], '/');
    }
  }

  /** An absolute path of plain names is clean already, and cleaning cleans for good. */
  lemma CleanOfNames(parts: seq<string>)
    requires |parts| >= 1 && Names(parts)
    ensures Clean("/" + Join(parts, '/')) == "/" + Join(parts, '/')
  {
    var p := "/" + Join(parts, '/');
    assert p == "" + "/" + Join(parts, '/');
    SplitAppend("", Join(parts, '/'));
    SplitOfJoin(parts);
    assert Split(p, '/') == [""] + parts;
    assert ([""] + parts)[1..] == parts;
    ReduceOfNames([], parts);
    assert [] + parts == parts;
  }

  lemma CleanTwice(p: string)
    requires Rooted(p)
    ensures Clean(Clean(p)) == Clean(p)
  {
    JoinSplit(p, '/');
    ReduceNames([], Split(p, '/'));
    if Components(p) == [] {
      SplitAppend("", "");
      assert "" + "/" + "" == "/" && Split("/", '/') == ["", ""];
      assert ["", ""][1..] == [""] && [""][1..] == [];
      assert Reduce(true, [], [""]) == [];
    } else {
      CleanOfNames(Components(p));
    }
  }

  /** Slashes at the end do not matter for the last element; nothing is the dot, and slashes alone are the root. */
  lemma BaseAtEnds(p: string)
    ensures p != "" ==> Base(p + "/") == Base(p)
    ensures Base("") == "." && Base("/") == "/"
  {
    assert (p + "/")[..|p|] == p;
    assert StripSlashes(p + "/") == StripSlashes(p);
    assert StripSlashes("/") == StripSlashes("") == "";
  }

  // ---------------------------------------------------------- device paths

  /** filepath.Join(devRoot, name) */
  function DevPath(name: string): string {
    Clean("/dev/" + name)
  }

  lemma DevPathOfName(name: string)
    requires IsName(name)
    ensures DevPath(name) == "/dev/" + name && Base(DevPath(name)) == name
  {
    var p := "/dev/" + name;
    SplitOnce("dev", name, '/');
    assert p[1..] == "dev" + ['/'] + name;
    var parts := Split(p, '/');
    assert parts == ["", "dev", name];
    assert parts[1..] == ["dev", name];
    assert parts[1..][1..] == [name];
    assert [name][1..] == [];
    assert Push(true, ["dev"], name) == ["dev", name];
    assert Reduce(true, ["dev", name], []) == ["dev", name];
    assert Reduce(true, ["dev"], [name]) == ["dev", name];
    assert Push(true, [], "dev") == ["dev"];
    assert Reduce(true, [], ["dev", name]) == ["dev", name];
    assert Reduce(true, [], parts) == ["dev", name];
    assert ["dev", name][1..] == [name];
    assert Join(["dev", name], '/') == "dev" + ['/'] + name;
    BaseOfJoin("/dev", name);
    assert p == "/dev" + "/" + name;
  }

  // --------------------------------------------------------- the node's trees

  datatype ReadText = Missing | Unreadable | Contents(text: string)

  datatype Stat = Present | Absent | StatError

  /** An entry of a block directory, and whether it holds a partition file. */
  datatype Child = Child(name: string, partition: bool)

  /**
   A block directory: its entries, its own partition file, its size file, its
   delete node; and what probing the device says.
   */
  datatype Block = Block(
    name: string,
    isDir: bool,
    children: seq<Child>,
    partition: bool,
    size: Option<string>,
    delete: Stat,
    probe: Option<bool>)

  /**
   The block directory listing, the mount table, symbolic link resolution where
   it succeeds, and the by-path links.
   */
  datatype Tree = Tree(
    listable: bool,
    blocks: seq<Block>,
    mountInfo: ReadText,
    links: map<string, string>,
    byPath: seq<string>)

  /** EvalSymlinks, or the cleaned path when that fails. */
  function Resolve(t: Tree, p: string): string {
    if p in t.links then t.links[p] else Clean(p)
  }

  /** Directory entries are named once and plainly; resolving gives a cleaned path that resolves to itself. */
  predicate Sane(t: Tree) {
    && (forall i :: 0 <= i < |t.blocks| ==> IsName(t.blocks[i].name))
    && (forall i, j :: 0 <= i < j < |t.blocks| ==> t.blocks[i].name != t.blocks[j].name)
    && (forall p :: p in t.links ==> t.links[p] == Clean(t.links[p]) && Resolve(t, t.links[p]) == t.links[p])
  }

  function SkippedPrefixes(): seq<string> {
    ["loop", "nbd", "ram", "zram", "dm-", "sr", "fd"]
  }

  predicate Skipped(name: string) {
    exists i :: 0 <= i < |SkippedPrefixes()| && HasPrefix(name, SkippedPrefixes()[i])
  }

  /** The kinds of block devices that are never touched. */
  lemma SkippedExactly(name: string)
    ensures Skipped(name) <==>
            || HasPrefix(name, "loop") || HasPrefix(name, "nbd") || HasPrefix(name, "ram") || HasPrefix(name, "zram")
            || HasPrefix(name, "dm-") || HasPrefix(name, "sr") || HasPrefix(name, "fd")
  {
    var ps := SkippedPrefixes();
    assert ps[0] == "loop" && ps[1] == "nbd" && ps[2] == "ram" && ps[3] == "zram";
    assert ps[4] == "dm-" && ps[5] == "sr" && ps[6] == "fd";
  }

  method SkipBlockDevice(name: string) returns (skip: bool)
    ensures skip == Skipped(name)
  {
    var prefixes := SkippedPrefixes();
    for i := 0 to |prefixes|
      invariant forall k :: 0 <= k < i ==> !HasPrefix(name, prefixes[k])
    {
      if HasPrefix(name, prefixes[i]) {
        return true;
      }
    }
    return false;
  }

  predicate Partitioned(b: Block) {
    exists i :: 0 <= i < |b.children| && HasPrefix(b.children[i].name, b.name) && b.children[i].partition
  }

  method HasPartitions(b: Block) returns (partitioned: bool)
    ensures partitioned == Partitioned(b)
  {
    for i := 0 to |b.children|
      invariant forall k :: 0 <= k < i ==> !(HasPrefix(b.children[k].name, b.name) && b.children[k].partition)
    {
      if HasPrefix(b.children[i].name, b.name) {
        if b.children[i].partition {
          return true;
        }
      }
    }
    return false;
  }

  // ---------------------------------------------------------- the mount table

  function Word(s: string): (w: string)
    ensures |w| <= |s| && w == s[..|w|]
    ensures s != "" && !IsSpace(s[0]) ==> w != ""
    ensures forall i :: 0 <= i < |w| ==> !IsSpace(w[i])
    ensures |w| < |s| ==> IsSpace(s[|w|])
  {
    if s == "" || IsSpace(s[0]) then "" else [s[0]] + Word(s[1..])
  }

  /** strings.Fields */
  function Fields(s: string): seq<string>
    decreases |s|
  {
    var t := TrimLeft(s);
    if t == "" then []
    else
      TrimLeftSuffix(s);
      var w := Word(t);
      [w] + Fields(t[|w|..])
  }

  predicate Token(s: string) {
    s != "" && forall i :: 0 <= i < |s| ==> !IsSpace(s[i])
  }

  lemma {:induction false} WordOfToken(w: string, rest: string)
    requires Token(w) && (rest == "" || IsSpace(rest[0]))
    ensures Word(w + rest) == w && TrimLeft(w + rest) == w + rest
  {
    var s := w + rest;
    assert !IsSpace(s[0]) by { assert s[0] == w[0]; }
    if |w| == 1 {
      assert s[1..] == rest;
    } else {
      assert s[1..] == w[1..] + rest;
      WordOfToken(w[1..], rest);
      assert w == [w[0]] + w[1..];
    }
  }

  lemma SpaceBefore(s: string)
    ensures Fields([' '] + s) == Fields(s)
  {
  }

  /** One token and a space in front give one field more. */
  lemma FieldsCons(w: string, tail: string)
    requires Token(w)
    ensures Fields(w + ([' '] + tail)) == [w] + Fields(tail)
  {
    var rest := [' '] + tail;
    WordOfToken(w, rest);
    assert (w + rest)[|w|..] == rest;
    SpaceBefore(tail);
  }

  lemma FieldsOne(w: string)
    requires Token(w)
    ensures Fields(w) == [w]
  {
    WordOfToken(w, "");
    assert w + "" == w;
    assert Fields(w[|w|..]) == [];
  }

  /** A reader that takes one token off the front undoes joining with single spaces. */
  lemma {:induction false} ReaderJoin(tokens: seq<string>, read: string -> seq<string>)
    requires |tokens| >= 1 && forall k :: 0 <= k < |tokens| ==> Token(tokens[k])
    requires forall w :: Token(w) ==> read(w) == [w]
    requires forall w, tail :: Token(w) ==> read(w + ([' '] + tail)) == [w] + read(tail)
    ensures read(Join(tokens, ' ')) == tokens
  {
    if |tokens| > 1 {
      var tail := Join(tokens[1..], ' ');
      ReaderJoin(tokens[1..], read);
      assert Join(tokens, ' ') == tokens[0] + ([' '] + tail);
      assert read(tokens[0] + ([' '] + tail)) == [tokens[0]] + read(tail);
      assert tokens == [tokens[0]] + tokens[1..];
    }
  }

  /** A mount table line written as tokens with single spaces reads back as those tokens. */
  lemma FieldsJoin(tokens: seq<string>)
    requires |tokens| >= 1 && forall k :: 0 <= k < |tokens| ==> Token(tokens[k])
    ensures Fields(Join(tokens, ' ')) == tokens
  {
    forall w | Token(w) ensures Fields(w) == [w] {
      FieldsOne(w);
    }
    forall w, tail | Token(w) ensures Fields(w + ([' '] + tail)) == [w] + Fields(tail) {
      FieldsCons(w, tail);
    }
    ReaderJoin(tokens, Fields);
  }

  /** The source column of a mount table line: the last but one of at least ten fields. */
  function SourceOf(line: string): Option<string> {
    var fields := Fields(line);
    if |fields| >= 10 then Some(fields[|fields| - 2]) else None
  }

  /** A line written as tokens names its last but one token as the source, if there are ten at least. */
  lemma SourceOfTokens(tokens: seq<string>)
    requires |tokens| >= 1 && forall k :: 0 <= k < |tokens| ==> Token(tokens[k])
    ensures SourceOf(Join(tokens, ' ')) == if |tokens| < 10 then None else Some(tokens[|tokens| - 2])
  {
    FieldsJoin(tokens);
  }

  /** The table mounts something from the source `s`. */
  predicate Sources(text: string, s: string) {
    exists i :: 0 <= i < |Split(text, '\n')| && SourceOf(Split(text, '\n')[i]) == Some(s)
  }

  /** The source and the device path resolve to the same path. */
  predicate SameDevice(t: Tree, left: string, right: string) {
    Resolve(t, left) == Resolve(t, right)
  }

  /** A name under the device's own that starts its rest with a digit or 'p'. */
  predicate DevicePartition(source: string, device: string) {
    && HasPrefix(source, device) && |source| > |device|
    && (IsDigit(source[|device|]) || source[|device|] == 'p')
  }

  /** How Linux names partition k of a disk: a 'p' between when the disk name ends in a digit. */
  function PartitionName(disk: string, k: nat): string
    requires disk != ""
  {
    disk + (if IsDigit(disk[|disk| - 1]) then "p" else "") + FormatNat(k)
  }

  /** Every partition name Linux gives is recognised. */
  lemma PartitionRecognised(disk: string, k: nat)
    requires disk != ""
    ensures DevicePartition(PartitionName(disk, k), disk)
  {
  }

  ghost predicate IsPartitionOf(source: string, disk: string)
    requires disk != ""
  {
    exists k: nat :: source == PartitionName(disk, k)
  }

  /**
   A disk whose entries with a partition file bear the names of its partitions is
   partitioned exactly if it has one.
   */
  lemma PartitionedExactly(b: Block)
    requires b.name != ""
    requires forall i :: 0 <= i < |b.children| && b.children[i].partition ==> IsPartitionOf(b.children[i].name, b.name)
    ensures Partitioned(b) <==> exists i :: 0 <= i < |b.children| && b.children[i].partition
  {
    forall i | 0 <= i < |b.children| && b.children[i].partition ensures HasPrefix(b.children[i].name, b.name) {
      var k: nat :| b.children[i].name == PartitionName(b.name, k);
      assert PartitionName(b.name, k)[..|b.name|] == b.name;
    }
  }

  /** What follows the disk's name in the name of a partition. */
  predicate PartitionSuffix(disk: string, rest: string)
    requires disk != ""
  {
    if IsDigit(disk[|disk| - 1]) then rest != "" && rest[0] == 'p'
      && CanonicalDigits(rest[1..]) else CanonicalDigits(rest)
  }

  lemma SuffixOfPartition(disk: string, rest: string, k: nat)
    requires disk != "" && disk + rest == PartitionName(disk, k)
    ensures PartitionSuffix(disk, rest)
  {
    var letter := if IsDigit(disk[|disk| - 1]) then "p" else "";
    FormatNatValue(k);
    assert rest == (disk + rest)[|disk|..] == letter + FormatNat(k);
  }

  lemma PartitionOfSuffix(disk: string, rest: string)
    requires disk != "" && PartitionSuffix(disk, rest)
    ensures IsPartitionOf(disk + rest, disk)
  {
    var letter := if IsDigit(disk[|disk| - 1]) then "p" else "";
    var digits := rest[|letter|..];
    ValueFormatNat(digits);
    assert rest == letter + digits;
    assert disk + rest == PartitionName(disk, Value(digits));
  }

  lemma PartitionExactly(disk: string, rest: string)
    requires disk != ""
    ensures IsPartitionOf(disk + rest, disk) <==> PartitionSuffix(disk, rest)
  {
    if k: nat :| disk + rest == PartitionName(disk, k) {
      SuffixOfPartition(disk, rest, k);
    }
    if PartitionSuffix(disk, rest) {
      PartitionOfSuffix(disk, rest);
    }
  }

  /**
   Digits after a disk's name always pass for a partition, and name one exactly
   if the disk's own name does not end in a digit.
   */
  lemma DigitNeighbours(disk: string, ds: string)
    requires disk != "" && Digits(ds)
    ensures DevicePartition(disk + ds, disk)
    ensures IsPartitionOf(disk + ds, disk) <==> !IsDigit(disk[|disk| - 1]) && CanonicalDigits(ds)
  {
    PartitionExactly(disk, ds);
    assert (disk + ds)[..|disk|] == disk;
  }

  /**
   A 'p' after it always passes too, and names one exactly if the disk's own name
   ends in a digit and a number follows.
   */
  lemma LetterNeighbours(disk: string, rest: string)
    requires disk != ""
    ensures DevicePartition(disk + "p" + rest, disk)
    ensures IsPartitionOf(disk + "p" + rest, disk) <==> IsDigit(disk[|disk| - 1]) && CanonicalDigits(rest)
  {
    var suffix := "p" + rest;
    assert disk + "p" + rest == disk + suffix && suffix[1..] == rest;
    assert (disk + suffix)[..|disk|] == disk;
    PartitionExactly(disk, suffix);
  }

  /** A name that passes for a partition of the disk but is none. */
  ghost predicate Misjudged(source: string, disk: string)
    requires disk != ""
  {
    DevicePartition(source, disk) && !IsPartitionOf(source, disk)
  }

  /** Which names are misjudged. */
  lemma MisjudgedExactly(disk: string, rest: string)
    requires disk != ""
    ensures Misjudged(disk + rest, disk) <==>
            rest != "" && (IsDigit(rest[0]) || rest[0] == 'p') && !PartitionSuffix(disk, rest)
  {
    PartitionExactly(disk, rest);
    assert (disk + rest)[..|disk|] == disk;
  }

  /** Such a name: another namespace of the same controller. */
  lemma NeighbourTakenForPartition()
    ensures DevicePartition("/dev/nvme0n10", "/dev/nvme0n1")
    ensures forall k: nat :: PartitionName("/dev/nvme0n1", k) != "/dev/nvme0n10"
  {
    DigitNeighbours("/dev/nvme0n1", "0");
    assert "/dev/nvme0n10" == "/dev/nvme0n1" + "0";
  }

  /** The line's source resolves as the device does. */
  predicate From(t: Tree, line: string, device: string) {
    match SourceOf(line)
    case Some(s) => SameDevice(t, s, device)
    case None => false
  }

  predicate AnyLine(lines: seq<string>, test: string -> bool) {
    exists i :: 0 <= i < |lines| && test(lines[i])
  }

  /** The loop over the lines of the mount table. */
  method SearchLines(lines: seq<string>, test: string -> bool) returns (found: bool)
    ensures found == AnyLine(lines, test)
  {
    for i := 0 to |lines|
      invariant forall k :: 0 <= k < i ==> !test(lines[k])
    {
      if test(lines[i]) {
        return true;
      }
    }
    return false;
  }

  /** Is a path the source of a mount? */
  function MountedFrom(t: Tree, device: string): Option<bool> {
    match t.mountInfo
    case Missing => Some(false)
    case Unreadable => None
    case Contents(text) => Some(AnyLine(Split(text, '\n'), line => From(t, line, device)))
  }

  method IsMountedSource(t: Tree, source: string) returns (mounted: Option<bool>)
    ensures mounted == MountedFrom(t, source)
  {
    if t.mountInfo.Missing? {
      return Some(false);
    }
    if t.mountInfo.Unreadable? {
      return None;
    }
    var found := SearchLines(Split(t.mountInfo.text, '\n'), line => From(t, line, source));
    return Some(found);
  }

  lemma SourceLine(t: Tree, lines: seq<string>, s: string, device: string)
    requires (exists i :: 0 <= i < |lines| && SourceOf(lines[i]) == Some(s)) && SameDevice(t, s, device)
    ensures AnyLine(lines, line => From(t, line, device))
  {
    var i :| 0 <= i < |lines| && SourceOf(lines[i]) == Some(s);
    assert From(t, lines[i], device);
  }

  /** A path counts as a mounted source exactly if the table mounts something from a source that resolves alike. */
  lemma MountedFromExactly(t: Tree, device: string)
    ensures MountedFrom(t, device) == Some(true) <==>
            t.mountInfo.Contents? && exists s :: Sources(t.mountInfo.text, s) && Resolve(t, s) == Resolve(t, device)
    ensures MountedFrom(t, device) == None <==> t.mountInfo.Unreadable?
  {
    if !t.mountInfo.Contents? {
      return;
    }
    var lines := Split(t.mountInfo.text, '\n');
    if s :| Sources(t.mountInfo.text, s) && SameDevice(t, s, device) {
      SourceLine(t, lines, s, device);
    }
    if i :| 0 <= i < |lines| && From(t, lines[i], device) {
      assert Sources(t.mountInfo.text, SourceOf(lines[i]).value);
    }
  }
}

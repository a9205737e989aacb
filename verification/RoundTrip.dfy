/**
 Reading back what the client writes: `parseVolumeList` undoes
 `resizeVolumesPayload`, field by field and list by list.
 */
module RoundTrip {
  import opened Text
  import opened Numerals
  import opened Float64
  import opened Volumes
  import opened Wire

  /** Sizes a double holds; larger ones than 2^30 are read as bytes. */
  predicate PortableSize(n: int) {
    n <= GIB && Representable(n)
  }

  /** Volumes whose every written field crosses the wire unchanged. */
  predicate Portable(v: Volume) {
    && v.id != "" && WireStable(v.id)
    && Trimmed(v.name) && Trimmed(v.mountPoint)
    && WireStable(v.storageType) && WireStable(v.datastore)
    && PortableSize(v.sizeGiB)
  }

  function Sent(v: Volume): map<string, Json> {
    TransmitObject(PayloadItem(v)).fields
  }

  /** What a decoded payload entry says under each key the parser looks at. */
  predicate Carries(m: map<string, Json>, v: Volume) {
    && "name" in m && m["name"] == Str(v.name)
    && "size" in m && m["size"] == Num(ToFloat64(v.sizeGiB) as real)
    && "rootVolume" in m && m["rootVolume"] == Bool(v.root)
    && "id" in m && m["id"] == Transmit(JsonID(v.id))
    && ("storageType" in m <==> v.storageType != "")
    && Get(m, "storageType") == (if v.storageType != "" then Transmit(JsonID(v.storageType)) else Null)
    && Get(m, "datastoreId") == (if v.datastore != "" then Transmit(JsonID(v.datastore)) else Null)
    && Get(m, "controllerMountPoint") == (if v.mountPoint != "" then Str(v.mountPoint) else Null)
    && "storageTypeId" !in m && "type" !in m && "datastore" !in m
  }

  predicate SizeKeysAbsent(m: map<string, Json>) {
    "sizeGiB" !in m && "sizeGB" !in m && "sizeGb" !in m && "maxStorage" !in m
  }

  predicate DeviceKeysAbsent(m: map<string, Json>) {
    && "devicePath" !in m && "deviceName" !in m && "device" !in m && "path" !in m
    && "connectionInfo" !in m && "attachment" !in m && "mount" !in m
  }

  lemma SentKeys(v: Volume)
    ensures Sent(v).Keys <= {"name", "size", "sizeId", "rootVolume", "id", "storageType", "datastoreId",
            "controllerMountPoint"}
    ensures "storageType" in Sent(v) <==> v.storageType != ""
    ensures "datastoreId" in Sent(v) <==> v.datastore != ""
    ensures "controllerMountPoint" in Sent(v) <==> v.mountPoint != ""
  {
    assert Sent(v).Keys == PayloadItem(v).Keys;
  }

  lemma ItemFields(v: Volume)
    requires v.id != ""
    ensures var p := PayloadItem(v);
            && {"name", "size", "rootVolume", "id"} <= p.Keys
            && p["name"] == TextField(v.name) && p["size"] == IntField(v.sizeGiB)
            && p["rootVolume"] == BoolField(v.root) && p["id"] == JsonID(v.id)
  {
  }

  lemma OptionalItemFields(v: Volume)
    ensures var p := PayloadItem(v);
            && (v.storageType != "" ==> "storageType" in p && p["storageType"] == JsonID(v.storageType))
            && (v.datastore != "" ==> "datastoreId" in p && p["datastoreId"] == JsonID(v.datastore))
            && (v.mountPoint != "" ==>
                "controllerMountPoint" in p && p["controllerMountPoint"] == TextField(v.mountPoint))
  {
  }

  lemma CarriesItem(p: map<string, Field>, m: map<string, Json>, v: Volume)
    requires m == TransmitObject(p).fields
    requires {"name", "size", "rootVolume", "id"} <= p.Keys
    requires p["name"] == TextField(v.name) && p["size"] == IntField(v.sizeGiB)
    requires p["rootVolume"] == BoolField(v.root) && p["id"] == JsonID(v.id)
    requires "storageType" in p <==> v.storageType != ""
    requires "datastoreId" in p <==> v.datastore != ""
    requires "controllerMountPoint" in p <==> v.mountPoint != ""
    requires v.storageType != "" ==> p["storageType"] == JsonID(v.storageType)
    requires v.datastore != "" ==> p["datastoreId"] == JsonID(v.datastore)
    requires v.mountPoint != "" ==> p["controllerMountPoint"] == TextField(v.mountPoint)
    requires "storageTypeId" !in p && "type" !in p && "datastore" !in p
    ensures Carries(m, v)
  {
  }

  lemma SentCarries(v: Volume)
    requires v.id != ""
    ensures Carries(Sent(v), v)
  {
    SentKeys(v);
    ItemFields(v);
    OptionalItemFields(v);
    var p := PayloadItem(v);
    CarriesItem(p, TransmitObject(p).fields, v);
  }

  lemma KeysApart(keys: set<string>)
    requires keys <= {"name", "size", "sizeId", "rootVolume", "id", "storageType", "datastoreId",
             "controllerMountPoint"}
    ensures {"sizeGiB", "sizeGB", "sizeGb", "maxStorage"} !! keys
    ensures {"devicePath", "deviceName", "device", "path", "connectionInfo", "attachment", "mount"} !! keys
  {
  }

  lemma SentAbsent(v: Volume)
    ensures SizeKeysAbsent(Sent(v)) && DeviceKeysAbsent(Sent(v))
  {
    SentKeys(v);
    KeysApart(Sent(v).Keys);
  }

  lemma {:induction false} AbsentKeys(m: map<string, Json>, keys: seq<string>)
    requires forall k :: k in keys ==> k !in m
    ensures FirstValue(m, keys) == Null
  {
    if keys != [] {
      assert keys[0] in keys;
      AbsentKeys(m, keys[1..]);
    }
  }

  lemma SecondKey(m: map<string, Json>, first: string, second: string)
    requires first !in m
    ensures FirstValue(m, [first, second]) == Get(m, second)
  {
    var tail := [second];
    assert [first, second][1..] == tail;
    assert tail[0] == second && tail[1..] == [];
    assert FirstValue(m, tail) == Get(m, second);
  }

  /** How a size reads after it was written under the key that may also hold bytes. */
  function ReadSize(n: int): int {
    var value := Int64OfDouble(ToFloat64(n) as real);
    if value > GIB then TruncDiv(Wrap(value + GIB - 1), GIB) else value
  }

  lemma ReadSizeExactly(n: int)
    requires IsInt64(n)
    ensures ReadSize(n) == n <==> PortableSize(n)
  {
  }

  lemma SizeRoundTrip(m: map<string, Json>, v: Volume)
    requires IsInt64(v.sizeGiB) && Carries(m, v) && SizeKeysAbsent(m)
    ensures StorageSizeGiB(m) == v.sizeGiB <==> PortableSize(v.sizeGiB)
  {
    AbsentKeys(m, ["sizeGiB", "sizeGB", "sizeGb"]);
    SecondKey(m, "maxStorage", "size");
    assert StorageSizeGiB(m) == ReadSize(v.sizeGiB);
    ReadSizeExactly(v.sizeGiB);
  }

  lemma StorageTypeRoundTrip(m: map<string, Json>, v: Volume)
    requires Carries(m, v)
    ensures OrElse(StringValue(FirstValue(m, ["storageTypeId", "storageType"])),
                   StringValue(Get(AsMap(FirstValue(m, ["storageType", "type"])), "id"))) == v.storageType
       <==> WireStable(v.storageType)
  {
    SecondKey(m, "storageTypeId", "storageType");
    if v.storageType == "" {
      AbsentKeys(m, ["storageType", "type"]);
    }
    assert WireStable("");
  }

  lemma TextFields(m: map<string, Json>, v: Volume, p: Volume)
    requires Carries(m, v) && p == ParsedVolume(m)
    ensures p.root == v.root
    ensures p.name == v.name <==> Trimmed(v.name)
    ensures p.mountPoint == v.mountPoint <==> Trimmed(v.mountPoint)
  {
  }

  lemma IdentifierFields(m: map<string, Json>, v: Volume, p: Volume)
    requires Carries(m, v) && p == ParsedVolume(m)
    ensures p.id == WireText(v.id)
    ensures p.datastore == WireText(v.datastore)
  {
    assert v.datastore == "" ==> WireText(v.datastore) == "";
  }

  lemma NoDevice(m: map<string, Json>)
    requires DeviceKeysAbsent(m)
    ensures ParsedVolume(m).devicePath == ""
  {
    AbsentKeys(m, ["devicePath", "deviceName", "device", "path"]);
    AbsentKeys(m, ["connectionInfo", "attachment", "mount"]);
  }

  lemma FieldsRoundTrip(m: map<string, Json>, v: Volume)
    requires v.id != "" && IsInt64(v.sizeGiB) && Carries(m, v) && SizeKeysAbsent(m) && DeviceKeysAbsent(m)
    ensures ParseVolume(Obj(m)) == Some(v.(devicePath := "")) <==> Portable(v)
  {
    SizeRoundTrip(m, v);
    StorageTypeRoundTrip(m, v);
    NoDevice(m);
    TextFields(m, v, ParsedVolume(m));
    IdentifierFields(m, v, ParsedVolume(m));
  }

  /** A volume with an id is read back as it was written, device path aside, exactly when it is portable. */
  lemma EntryRoundTrip(v: Volume)
    requires IsInt64(v.sizeGiB)
    ensures ParseVolume(TransmitObject(PayloadItem(v))) == Some(v.(devicePath := "")) <==> Portable(v)
  {
    if v.id != "" {
      SentCarries(v);
      SentAbsent(v);
      FieldsRoundTrip(Sent(v), v);
    }
  }

  function Undevice(vs: seq<Volume>): (r: seq<Volume>)
    ensures |r| == |vs| && forall k :: 0 <= k < |vs| ==> r[k] == vs[k].(devicePath := "")
  {
    seq(|vs|, k requires 0 <= k < |vs| => vs[k].(devicePath := ""))
  }

  function SentAll(vs: seq<Volume>): (r: seq<Json>)
    ensures |r| == |vs| && forall k :: 0 <= k < |vs| ==> r[k] == TransmitObject(PayloadItem(vs[k]))
  {
    seq(|vs|, k requires 0 <= k < |vs| => TransmitObject(PayloadItem(vs[k])))
  }

  predicate AllPortable(vs: seq<Volume>) {
    forall k :: 0 <= k < |vs| ==> Portable(vs[k])
  }

  lemma {:induction false} KeptLength<A, B>(xs: seq<A>, f: A -> Option<B>)
    ensures |Kept(xs, f)| <= |xs|
  {
    if xs != [] {
      KeptLength(xs[1..], f);
    }
  }

  /** Nothing is dropped and every value is as expected exactly when each single one is. */
  lemma {:induction false} KeptAll<A, B>(xs: seq<A>, f: A -> Option<B>, ys: seq<B>)
    requires |xs| == |ys|
    ensures Kept(xs, f) == ys <==> forall k :: 0 <= k < |xs| ==> f(xs[k]) == Some(ys[k])
    decreases |xs|
  {
    if xs != [] {
      var rest := Kept(xs[1..], f);
      KeptLength(xs[1..], f);
      KeptAll(xs[1..], f, ys[1..]);
      if Kept(xs, f) == ys {
        assert |Kept(xs, f)| == |ys|;
        assert f(xs[0]).Some? && Kept(xs, f) == [f(xs[0]).value] + rest;
        assert ys[1..] == rest;
        forall k | 0 <= k < |xs| ensures f(xs[k]) == Some(ys[k]) {
          assert k > 0 ==> xs[k] == xs[1..][k - 1] && ys[k] == ys[1..][k - 1];
        }
      }
      if forall k :: 0 <= k < |xs| ==> f(xs[k]) == Some(ys[k]) {
        assert ys == [ys[0]] + ys[1..];
      }
    }
  }

  lemma EntriesRoundTrip(vs: seq<Volume>)
    requires forall k :: 0 <= k < |vs| ==> IsInt64(vs[k].sizeGiB)
    ensures ParseEntries(SentAll(vs)) == Undevice(vs) <==> AllPortable(vs)
  {
    KeptAll(SentAll(vs), ParseVolume, Undevice(vs));
    forall k | 0 <= k < |vs| ensures ParseVolume(SentAll(vs)[k]) == Some(Undevice(vs)[k]) <==> Portable(vs[k]) {
      EntryRoundTrip(vs[k]);
    }
  }

  /**
   A server that reports the array it was sent reports every volume as it was,
   device paths aside, exactly when all are portable.
   */
  lemma PayloadRoundTrip(vs: seq<Volume>, rest: map<string, Json>)
    requires forall k :: 0 <= k < |vs| ==> IsInt64(vs[k].sizeGiB)
    requires vs == [] ==> rest.Keys !! {"storageVolumes", "disks"}
    ensures ParseVolumeList(rest["volumes" := Arr(SentAll(vs))]) == Undevice(vs) <==> AllPortable(vs)
  {
    EntriesRoundTrip(vs);
  }

  /** Volumes of the usual kind: trimmed text, small sizes, and identifiers that are no large numbers. */
  predicate Everyday(v: Volume) {
    && v.id != "" && Trimmed(v.name) && Trimmed(v.mountPoint) && 1 <= v.sizeGiB <= GIB
    && forall x :: x in {v.id, v.storageType, v.datastore} ==>
         if ParseInt(x).Some? then Canonical(x) && -TWO_53 <= ParseInt(x).value <= TWO_53 else Trimmed(x)
  }

  lemma EverydayIsPortable(v: Volume)
    requires Everyday(v)
    ensures Portable(v)
  {
    SmallIsRepresentable(v.sizeGiB);
    forall x | x in {v.id, v.storageType, v.datastore} ensures WireStable(x) {
      WireStableExactly(x);
      if ParseInt(x).Some? {
        SmallIntegersStable(x);
      }
    }
  }

  /** The volume a backend reports after it was sent, with an id, once. */
  function ReadBack(v: Volume): Option<Volume> {
    ParseVolume(TransmitObject(PayloadItem(v)))
  }

  lemma ReadsBack(v: Volume)
    requires v.id != "" && WireText(v.id) != ""
    ensures var back := ReadBack(v);
            back.Some? && back.value.id == WireText(v.id) && back.value.datastore == WireText(v.datastore)
  {
    SentCarries(v);
    var m := Sent(v);
    TextFields(m, v, ParsedVolume(m));
    IdentifierFields(m, v, ParsedVolume(m));
    assert "name" in m;
  }

  /**
   The datastore parameter of the storage class is sent as it is written. What
   is read back of it is sent with the next write, and is read back the same
   then exactly if the parameter is trimmed or its trimmed form survives.
   */
  lemma DatastoreDrifts(req: ResizeRequest, id: string)
    requires id != "" && WireText(id) != "" && WireText(WireText(id)) != ""
    ensures var parameter := Param(req.params, PARAM_DATASTORE_ID);
            var first := ReadBack(Requested(req).(id := id));
            && first.Some? && first.value.datastore == WireText(parameter)
            && var second := ReadBack(first.value);
               && second.Some?
               && (second.value.datastore == first.value.datastore <==>
                   Trimmed(parameter) || WireStable(Trim(parameter)))
  {
    var parameter := Param(req.params, PARAM_DATASTORE_ID);
    ReadsBack(Requested(req).(id := id));
    ReadsBack(ReadBack(Requested(req).(id := id)).value);
    SettlesAtOnce(parameter);
  }

  // ------------------------------------------------------------------- loops

  method ResizeVolumesPayload(vs: seq<Volume>) returns (payload: seq<map<string, Field>>)
    ensures payload == Payload(vs)
  {
    payload := [];
    for i := 0 to |vs|
      invariant |payload| == i && forall k :: 0 <= k < i ==> payload[k] == PayloadItem(vs[k])
    {
      payload := payload + [PayloadItem(vs[i])];
    }
    assert payload == Payload(vs);
  }

  method KeepPresent<A, B>(xs: seq<A>, f: A -> Option<B>) returns (ys: seq<B>)
    ensures ys == Kept(xs, f)
  {
    ys := [];
    for i := 0 to |xs|
      invariant ys + Kept(xs[i..], f) == Kept(xs, f)
    {
      assert xs[i..][1..] == xs[i + 1..];
      var y := f(xs[i]);
      if y.Some? {
        ys := ys + [y.value];
      }
    }
  }
}

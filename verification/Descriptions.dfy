/**
 What a server description may say: the alternative keys under which the client
 reads each field of a volume, and what is sent for a disk that is asked for.
 */
module Descriptions {
  import opened Text
  import opened Numerals
  import opened Float64
  import opened Volumes
  import opened Wire

  /** `value` is what stands under the first of the keys that is present, and null if none is. */
  predicate Says(m: map<string, Json>, keys: seq<string>, value: Json) {
    || (value == Null && forall k :: k in keys ==> k !in m)
    || exists i :: 0 <= i < |keys| && keys[i] in m && m[keys[i]] == value && forall j :: 0 <= j < i ==> keys[j] !in m
  }

  lemma {:induction false} FirstValueSaid(m: map<string, Json>, keys: seq<string>, value: Json)
    requires Says(m, keys, value)
    ensures FirstValue(m, keys) == value
  {
    if keys != [] && keys[0] !in m {
      forall k | k in keys[1..] ensures k in keys {
      }
      if i :| 0 <= i < |keys| && keys[i] in m && m[keys[i]] == value && forall j :: 0 <= j < i ==> keys[j] !in m {
        assert keys[1..][i - 1] == keys[i];
      }
      FirstValueSaid(m, keys[1..], value);
    } else if keys != [] {
      assert keys[0] in keys;
    }
  }

  /** The text of a value: text is trimmed, numbers are printed without a fraction, anything else says nothing. */
  lemma TextOf(j: Json)
    ensures j.Str? ==> StringValue(j) == Trim(j.text)
    ensures j.Num? ==> ParseInt(StringValue(j)) == Some(Int64OfDouble(j.value)) && Canonical(StringValue(j))
    ensures !j.Str? && !j.Num? ==> StringValue(j) == ""
  {
    if j.Num? {
      ParseFormat(Int64OfDouble(j.value));
    }
  }

  /** The number a value gives: text counts if it is a number around which there may be spaces. */
  lemma NumberOf(j: Json)
    ensures j.Num? ==> Int64Value(j) == Int64OfDouble(j.value)
    ensures j.Str? && ParseInt(Trim(j.text)).Some? ==> Int64Value(j) == ParseInt(Trim(j.text)).value
    ensures j.Str? && (Trim(j.text) == "" || (!IsDigit(Trim(j.text)[0]) && Trim(j.text)[0] !in {'+', '-'})) ==>
              Int64Value(j) == 0
    ensures !j.Str? && !j.Num? ==> Int64Value(j) == 0
  {
    if j.Str? {
      var t := Trim(j.text);
      if t == "" || (!IsDigit(t[0]) && t[0] !in {'+', '-'}) {
        assert "" + ("" + t) == t;
        JunkAfterDigits("", "", t);
      }
    }
  }

  /** The root flag: true, or one of the six spellings of true with spaces around it. */
  lemma RootSaid(m: map<string, Json>, j: Json)
    requires Says(m, ["rootVolume", "root", "isRoot"], j)
    ensures ParsedVolume(m).root <==>
            || j == Bool(true)
            || (j.Str? && (Trim(j.text) == "1" || Trim(j.text) == "t" || Trim(j.text) == "T" || Trim(j.text) == "true"
                           || Trim(j.text) == "True" || Trim(j.text) == "TRUE"))
  {
    FirstValueSaid(m, ["rootVolume", "root", "isRoot"], j);
  }

  /** The size: a positive one in GiB if given, else one in GiB or bytes, which it is read as above 2^30. */
  lemma SizeSaid(m: map<string, Json>, gib: Json, either: Json)
    requires Says(m, ["sizeGiB", "sizeGB", "sizeGb"], gib) && Says(m, ["maxStorage", "size"], either)
    ensures var size, n := ParsedVolume(m).sizeGiB, Int64Value(either);
            && (Int64Value(gib) > 0 ==> size == Int64Value(gib))
            && (Int64Value(gib) <= 0 && n <= 0x4000_0000 ==> size == n)
            && (Int64Value(gib) <= 0 && 0x4000_0000 < n <= TWO_63 - 0x4000_0000 ==>
                  (size - 1) * 0x4000_0000 < n <= size * 0x4000_0000)
  {
    FirstValueSaid(m, ["sizeGiB", "sizeGB", "sizeGb"], gib);
    FirstValueSaid(m, ["maxStorage", "size"], either);
  }

  /** The storage type: as a value, else by the id of an object. */
  lemma TypeSaid(m: map<string, Json>, value: Json, nested: Json)
    requires Says(m, ["storageTypeId", "storageType"], value) && Says(m, ["storageType", "type"], nested)
    ensures ParsedVolume(m).storageType == if StringValue(value) != "" then StringValue(value)
            else if nested.Obj? && "id" in nested.fields then StringValue(nested.fields["id"]) else ""
  {
    FirstValueSaid(m, ["storageTypeId", "storageType"], value);
    FirstValueSaid(m, ["storageType", "type"], nested);
  }

  lemma DatastoreSaid(m: map<string, Json>, value: Json, nested: Json)
    requires Says(m, ["datastoreId"], value) && Says(m, ["datastore"], nested)
    ensures ParsedVolume(m).datastore == if StringValue(value) != "" then StringValue(value)
            else if nested.Obj? && "id" in nested.fields then StringValue(nested.fields["id"]) else ""
  {
    FirstValueSaid(m, ["datastoreId"], value);
    FirstValueSaid(m, ["datastore"], nested);
    assert ["datastoreId"][1..] == [] && ["datastore"][1..] == [];
    assert FirstValue(m, ["datastoreId"]) == Get(m, "datastoreId");
    assert FirstValue(m, ["datastore"]) == Get(m, "datastore");
  }

  lemma TextIsTrimmed(j: Json)
    ensures Trimmed(StringValue(j))
  {
    if j.Num? {
      ParseFormat(Int64OfDouble(j.value));
      IntegersAreTrimmed(StringValue(j));
    }
  }

  /** The device path: as a value, else in an object; in both cases a bare name gets the device root in front. */
  lemma DeviceSaid(m: map<string, Json>, value: Json, nested: Json)
    requires Says(m, ["devicePath", "deviceName", "device", "path"], value)
    requires Says(m, ["connectionInfo", "attachment", "mount"], nested)
    ensures ParsedVolume(m).devicePath ==
            if StringValue(value) != "" then NormalizeDevicePath(StringValue(value))
            else if nested.Obj? && "devicePath" in nested.fields
              then NormalizeDevicePath(StringValue(nested.fields["devicePath"])) else ""
  {
    FirstValueSaid(m, ["devicePath", "deviceName", "device", "path"], value);
    FirstValueSaid(m, ["connectionInfo", "attachment", "mount"], nested);
    NormalizedDevicePath(StringValue(value));
    TextIsTrimmed(value);
    assert Trim("") == "" && NormalizeDevicePath("") == "";
  }

  lemma OthersSaid(m: map<string, Json>)
    ensures var v := ParsedVolume(m);
            && v.id == (if "id" in m then StringValue(m["id"]) else "")
            && v.name == (if "name" in m then StringValue(m["name"]) else "")
            && v.mountPoint == (if "controllerMountPoint" in m then StringValue(m["controllerMountPoint"]) else "")
  {
  }

  /** An entry is kept exactly if it is an object that says an id. */
  lemma EntryKept(j: Json)
    ensures ParseVolume(j).Some? <==> j.Obj? && "id" in j.fields && StringValue(j.fields["id"]) != ""
    ensures ParseVolume(j).Some? ==> ParseVolume(j).value == ParsedVolume(j.fields)
  {
    if j.Obj? {
      OthersSaid(j.fields);
    }
  }

  /** A list of entries that says something. */
  predicate Filled(server: map<string, Json>, key: string) {
    key in server && server[key].Arr? && server[key].items != []
  }

  /** The volumes stand under the first of three keys that holds a list with entries. */
  lemma ListSaid(server: map<string, Json>, i: nat)
    requires i <= 3 && forall j :: 0 <= j < i ==> !Filled(server, ["volumes", "storageVolumes", "disks"][j])
    requires i < 3 ==> Filled(server, ["volumes", "storageVolumes", "disks"][i])
    ensures ParseVolumeList(server) ==
            if i < 3 then Kept(server[["volumes", "storageVolumes", "disks"][i]].items, ParseVolume) else []
  {
    var keys := ["volumes", "storageVolumes", "disks"];
    assert keys[0] == "volumes" && keys[1] == "storageVolumes" && keys[2] == "disks";
    forall j | 0 <= j < 3 && !Filled(server, keys[j]) ensures AsSlice(Get(server, keys[j])) == [] {
    }
    assert i > 0 ==> !Filled(server, keys[0]);
    assert i > 1 ==> !Filled(server, keys[1]);
    assert i > 2 ==> !Filled(server, keys[2]);
  }

  /**
   What is sent for an entry: its size in GiB with no size id; and instead of an
   id that is not known yet the number -1, for a disk that is not the root disk.
   */
  lemma EntrySent(v: Volume)
    ensures var item := PayloadItem(v);
            && {"name", "size", "sizeId", "rootVolume"} <= item.Keys && item["sizeId"] == NullField
            && item["name"] == TextField(v.name) && item["size"] == IntField(v.sizeGiB)
            && item["rootVolume"] == BoolField(v.root)
            && ("id" in item <==> v.id != "" || !v.root)
            && ("id" in item ==> item["id"] == (if v.id == "" then IntField(-1) else JsonID(v.id)))
            && item.Keys <= {"name", "size", "sizeId", "rootVolume", "id", "storageType", "datastoreId",
                             "controllerMountPoint"}
  {
  }
}

/**
 The JSON the client writes for a server's volume array and reads back from a
 server description. Numbers cross the wire as double precision values (section
 6 of RFC 8259).
 */
module Wire {
  import opened Text
  import opened Numerals
  import opened Float64
  import opened Volumes

  // ------------------------------------------------------------------ values

  /** A decoded JSON document. */
  datatype Json =
    | Null
    | Bool(b: bool)
    | Num(value: real)
    | Str(text: string)
    | Arr(items: seq<Json>)
    | Obj(fields: map<string, Json>)

  /** A value placed in a request body before it is encoded. */
  datatype Field = NullField | BoolField(b: bool) | IntField(n: int) | TextField(text: string)

  /** Encoding a field and decoding it again: integers come back as doubles. */
  function Transmit(f: Field): Json {
    match f
    case NullField => Null
    case BoolField(b) => Bool(b)
    case IntField(n) => Num(ToFloat64(n) as real)
    case TextField(t) => Str(t)
  }

  function TransmitObject(item: map<string, Field>): Json {
    Obj(map k | k in item :: Transmit(item[k]))
  }

  // ----------------------------------------------------------------- readers

  /** Conversion of a double to int64 truncates; outside the range it gives the smallest integer (amd64). */
  function Int64OfDouble(x: real): (n: int)
    ensures IsInt64(n)
  {
    var t := if x >= 0.0 then x.Floor else -((-x).Floor);
    if IsInt64(t) then t else -TWO_63
  }

  function StringValue(j: Json): string {
    match j
    case Str(t) => Trim(t)
    case Num(x) => FormatInt(Int64OfDouble(x))
    case _ => ""
  }

  function Int64Value(j: Json): (n: int)
    ensures IsInt64(n)
  {
    match j
    case Str(t) => ParseIntIgnoringError(Trim(t))
    case Num(x) => Int64OfDouble(x)
    case _ => 0
  }

  function BoolValue(j: Json): bool {
    match j
    case Bool(b) => b
    case Str(t) => Trim(t) in {"1", "t", "T", "TRUE", "true", "True"}
    case _ => false
  }

  function Get(m: map<string, Json>, key: string): Json {
    if key in m then m[key] else Null
  }

  /** The value of the first key that is present, even when that value is null. */
  function FirstValue(m: map<string, Json>, keys: seq<string>): Json {
    if keys == [] then Null else if keys[0] in m then m[keys[0]] else FirstValue(m, keys[1..])
  }

  function AsMap(j: Json): map<string, Json> {
    if j.Obj? then j.fields else map[]
  }

  const GIB: int := 0x4000_0000

  /** Sizes given in GiB are taken as they are; other sizes count as bytes only when larger than one GiB. */
  function StorageSizeGiB(m: map<string, Json>): int {
    var given := Int64Value(FirstValue(m, ["sizeGiB", "sizeGB", "sizeGb"]));
    if given > 0 then given
    else
      var value := Int64Value(FirstValue(m, ["maxStorage", "size"]));
      if value > GIB then TruncDiv(Wrap(value + GIB - 1), GIB) else value
  }

  function NormalizeDevicePath(path: string): string {
    var p := Trim(path);
    if HasPrefix(p, "sd") || HasPrefix(p, "vd") || HasPrefix(p, "xvd") || HasPrefix(p, "nvme") then "/dev/" + p else p
  }

  /** A device path: a name of a disk gets the device root in front, anything else is only trimmed. */
  lemma NormalizedDevicePath(path: string)
    ensures var p := Trim(path);
            NormalizeDevicePath(path) ==
            if HasPrefix(p, "sd") || HasPrefix(p, "vd") || HasPrefix(p, "xvd") || HasPrefix(p, "nvme") then "/dev/" + p
            else p
    ensures HasPrefix(Trim(path), "/dev/") || Trim(path) == "" ==> NormalizeDevicePath(path) == Trim(path)
  {
  }

  lemma NormalizedForGood(path: string)
    ensures NormalizeDevicePath(NormalizeDevicePath(path)) == NormalizeDevicePath(path)
  {
    var p, n := Trim(path), NormalizeDevicePath(path);
    if n != p {
      assert n[0] == '/' && n[|n| - 1] == p[|p| - 1];
    }
  }

  function OrElse(a: string, b: string): string {
    if a != "" then a else b
  }

  function ParsedVolume(m: map<string, Json>): Volume {
    Volume(
      StringValue(Get(m, "id")),
      StringValue(Get(m, "name")),
      StorageSizeGiB(m),
      BoolValue(FirstValue(m, ["rootVolume", "root", "isRoot"])),
      OrElse(StringValue(FirstValue(m, ["storageTypeId", "storageType"])),
             StringValue(Get(AsMap(FirstValue(m, ["storageType", "type"])), "id"))),
      OrElse(StringValue(Get(m, "datastoreId")),
             StringValue(Get(AsMap(Get(m, "datastore")), "id"))),
      StringValue(Get(m, "controllerMountPoint")),
      OrElse(NormalizeDevicePath(StringValue(FirstValue(m, ["devicePath", "deviceName", "device", "path"]))),
             NormalizeDevicePath(StringValue(Get(AsMap(FirstValue(m, ["connectionInfo", "attachment", "mount"])),
               "devicePath")))))
  }

  /** Entries that are not objects, are empty, or carry no id are dropped. */
  function ParseVolume(j: Json): Option<Volume> {
    var m := AsMap(j);
    if m == map[] || ParsedVolume(m).id == "" then None else Some(ParsedVolume(m))
  }

  /** The results of f that are present, in order. */
  function Kept<A, B>(xs: seq<A>, f: A -> Option<B>): seq<B> {
    if xs == [] then []
    else
      match f(xs[0])
      case Some(y) => [y] + Kept(xs[1..], f)
      case None => Kept(xs[1..], f)
  }

  function ParseEntries(items: seq<Json>): seq<Volume> {
    Kept(items, ParseVolume)
  }

  function AsSlice(j: Json): seq<Json> {
    if j.Arr? then j.items else []
  }

  /** The volumes of a server description: the first of three keys that holds a non-empty array. */
  function ParseVolumeList(server: map<string, Json>): seq<Volume> {
    if AsSlice(Get(server, "volumes")) != [] then ParseEntries(AsSlice(Get(server, "volumes")))
    else if AsSlice(Get(server, "storageVolumes")) != [] then ParseEntries(AsSlice(Get(server, "storageVolumes")))
    else ParseEntries(AsSlice(Get(server, "disks")))
  }

  // ------------------------------------------------------------------ writer

  /** Identifiers that read as integers are sent as numbers. */
  function JsonID(value: string): Field {
    match ParseInt(value)
    case Some(n) => IntField(n)
    case None => TextField(value)
  }

  function PayloadItem(v: Volume): map<string, Field> {
    var base := map["name" := TextField(v.name), "size" := IntField(v.sizeGiB),
                    "sizeId" := NullField, "rootVolume" := BoolField(v.root)];
    var withId := if v.id != "" then base["id" := JsonID(v.id)]
                  else if !v.root then base["id" := IntField(-1)] else base;
    var withType := if v.storageType != "" then withId["storageType" := JsonID(v.storageType)] else withId;
    var withStore := if v.datastore != "" then withType["datastoreId" := JsonID(v.datastore)] else withType;
    if v.mountPoint != "" then withStore["controllerMountPoint" := TextField(v.mountPoint)] else withStore
  }

  function Payload(vs: seq<Volume>): (r: seq<map<string, Field>>)
    ensures |r| == |vs| && forall k :: 0 <= k < |vs| ==> r[k] == PayloadItem(vs[k])
  {
    seq(|vs|, k requires 0 <= k < |vs| => PayloadItem(vs[k]))
  }

  // ------------------------------------------------------- text on the wire

  /** What a non-empty identifier reads as after one write and one read. */
  function WireText(x: string): string {
    StringValue(Transmit(JsonID(x)))
  }

  /** Identifiers that cross the wire unchanged. */
  predicate WireStable(x: string) {
    WireText(x) == x
  }

  /** A number with a fraction loses it, toward zero; what does not fit in 64 bits is the smallest integer. */
  lemma TruncatedNumber(x: real)
    ensures var n := Int64OfDouble(x);
            if -(TWO_63 as real) - 1.0 < x < TWO_63 as real then
              && (x >= 0.0 ==> n as real <= x < n as real + 1.0)
              && (x <= 0.0 ==> n as real - 1.0 < x <= n as real)
            else n == -TWO_63
  {
  }

  lemma TruncatedInteger(n: int)
    ensures Int64OfDouble(n as real) == if IsInt64(n) then n else -TWO_63
  {
  }

  lemma WireTextOfInteger(x: string)
    requires ParseInt(x).Some?
    ensures var n := ToFloat64(ParseInt(x).value);
            WireText(x) == FormatInt(if n == TWO_63 then -TWO_63 else n)
    ensures ToFloat64(ParseInt(x).value) == TWO_63 || IsInt64(ToFloat64(ParseInt(x).value))
  {
    RoundedInRange(ParseInt(x).value);
    TruncatedInteger(ToFloat64(ParseInt(x).value));
  }

  /**
   Exactly which identifiers survive: trimmed text that is not an integer, and
   canonical decimals that a double holds.
   */
  lemma WireStableExactly(x: string)
    ensures WireStable(x) <==>
            match ParseInt(x)
            case None => Trimmed(x)
            case Some(n) => Canonical(x) && Representable(n)
  {
    if ParseInt(x).Some? {
      var n := ParseInt(x).value;
      WireTextOfInteger(x);
      RoundedIsRepresentable(n);
      FormatParse(x);
      var m := if ToFloat64(n) == TWO_63 then -TWO_63 else ToFloat64(n);
      ParseFormat(m);
      if WireStable(x) {
        assert ParseInt(FormatInt(m)) == Some(m);
        assert n == m;
      }
    }
  }

  /** Every magnitude up to 2^53 is a double, so canonical decimals in that range survive. */
  lemma SmallIntegersStable(x: string)
    requires ParseInt(x).Some? && Canonical(x) && -TWO_53 <= ParseInt(x).value <= TWO_53
    ensures WireStable(x)
  {
    SmallIsRepresentable(ParseInt(x).value);
    WireStableExactly(x);
  }

  /** One trip normalises trimmed text for good. */
  lemma WireTextIdempotent(x: string)
    requires Trimmed(x)
    ensures WireStable(WireText(x))
  {
    match ParseInt(x)
    case None =>
    case Some(n) =>
      WireTextOfInteger(x);
      RoundedIsRepresentable(n);
      var m := if ToFloat64(n) == TWO_63 then -TWO_63 else ToFloat64(n);
      ParseFormat(m);
      WireStableExactly(FormatInt(m));
  }

  lemma IntegersAreTrimmed(x: string)
    ensures ParseInt(x).Some? ==> Trimmed(x)
  {
    if ParseInt(x).Some? {
      assert !IsSpace(x[0]) && !IsSpace(x[|x| - 1]);
    }
  }

  lemma WireTextIsTrimmed(x: string)
    ensures Trimmed(WireText(x))
  {
    match ParseInt(x)
    case None =>
    case Some(n) =>
      WireTextOfInteger(x);
      var m := if ToFloat64(n) == TWO_63 then -TWO_63 else ToFloat64(n);
      ParseFormat(m);
      IntegersAreTrimmed(FormatInt(m));
  }

  /**
   How often text has to cross the wire before it settles: once exactly if it
   is trimmed, or its trimmed form survives. Text that is padded around an
   integer written in another way than the canonical one changes twice.
   */
  lemma SettlesAtOnce(x: string)
    ensures WireStable(WireText(x)) <==> Trimmed(x) || WireStable(Trim(x))
    ensures !Trimmed(x) ==> WireText(x) == Trim(x)
    ensures WireStable(WireText(WireText(x)))
  {
    if Trimmed(x) {
      WireTextIdempotent(x);
    } else {
      IntegersAreTrimmed(x);
    }
    WireTextIsTrimmed(x);
    WireTextIdempotent(WireText(x));
  }

  lemma LeadingZeros()
    ensures ParseInt("007") == Some(7) && ParseInt(" 007 ") == None && FormatInt(7) == "7"
  {
    var x := "007";
    assert x[..2] == "00" && x[..2][..1] == "0";
    assert Value(x[..2][..1]) == 0 && Value(x[..2]) == 0 && Value(x) == 7;
    var y := " 007 ";
    assert y[0] == ' ' && !IsDigit(y[0]) && !Digits(y);
  }

  lemma TrimSurrounded(x: string)
    requires x != "" && Trimmed(x)
    ensures Trim(" " + x + " ") == x
  {
    var s := " " + x + " ";
    assert s[1..] == x + " ";
    assert TrimLeft(s) == TrimLeft(x + " ") == x + " ";
    assert (x + " ")[..|x|] == x;
    assert TrimRight(x + " ") == TrimRight(x) == x;
  }

  /** Such a text: one trip is not enough. */
  lemma UntrimmedTextDrifts()
    ensures WireText(" 007 ") == "007" && WireText("007") == "7"
  {
    LeadingZeros();
    TrimSurrounded("007");
    var padded := " " + "007" + " ";
    assert padded == " 007 ";
    assert JsonID(padded) == TextField(padded);
    assert WireText(padded) == "007";
    WireTextOfInteger("007");
    SmallIsRepresentable(7);
  }
}

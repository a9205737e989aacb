/**
 The CSI volume handle `<serverID>:<volumeID>`: printer and parser.
 */
module VolumeHandle {
  import opened Text

  datatype VolumeRef = VolumeRef(serverId: string, volumeId: string)

  function Encode(serverId: string, volumeId: string): string {
    Trim(serverId) + ":" + Trim(volumeId)
  }

  function Decode(handle: string): Option<VolumeRef> {
    var parts := Split(Trim(handle), ':');
    if |parts| != 2 || Blank(parts[0]) || Blank(parts[1]) then None
    else Some(VolumeRef(Trim(parts[0]), Trim(parts[1])))
  }

  /** A part of a handle that survives printing and parsing. */
  predicate HandlePart(s: string) {
    !Blank(s) && ':' !in Trim(s)
  }

  lemma TrimKeepsCharacters(s: string)
    ensures forall c :: c in Trim(s) ==> c in s
  {
    var i, j := TrimIsMiddle(s);
  }

  /** A handle written as two non-blank, colon-free halves. */
  predicate Halves(t: string, a: string, b: string) {
    t == a + ":" + b && HandlePart(a) && HandlePart(b) && ':' !in a && ':' !in b
  }

  lemma AcceptedHalves(handle: string) returns (a: string, b: string)
    requires Decode(handle).Some?
    ensures Halves(Trim(handle), a, b)
    ensures Decode(handle).value == VolumeRef(Trim(a), Trim(b))
  {
    var t := Trim(handle);
    var parts := Split(t, ':');
    JoinSplit(t, ':');
    a, b := parts[0], parts[1];
    assert parts[1..] == [b];
    TrimKeepsCharacters(a);
    TrimKeepsCharacters(b);
  }

  /** What the parser accepts, said without splitting. */
  lemma DecodeAccepts(handle: string)
    ensures Decode(handle).Some? <==> exists a, b :: Halves(Trim(handle), a, b)
  {
    if Decode(handle).Some? {
      var a, b := AcceptedHalves(handle);
    }
    if a, b :| Halves(Trim(handle), a, b) {
      SplitOnce(a, b, ':');
    }
  }

  /** Printing then parsing gives the trimmed pair back exactly for parts that are non-blank and colon-free. */
  lemma DecodeEncode(serverId: string, volumeId: string)
    ensures Decode(Encode(serverId, volumeId)) == Some(VolumeRef(Trim(serverId), Trim(volumeId)))
            <==> HandlePart(serverId) && HandlePart(volumeId)
  {
    var s, v := Trim(serverId), Trim(volumeId);
    var h := Encode(serverId, volumeId);
    if HandlePart(serverId) && HandlePart(volumeId) {
      assert Trimmed(h);
      SplitOnce(s, v, ':');
    } else if Decode(h) == Some(VolumeRef(s, v)) {
      var a, b := AcceptedHalves(h);
      TrimKeepsCharacters(a);
      TrimKeepsCharacters(b);
    }
  }

  /** Every accepted handle has a canonical spelling that decodes to the same reference. */
  lemma DecodeEncodeDecode(handle: string)
    requires Decode(handle).Some?
    ensures var r := Decode(handle).value;
            Decode(Encode(r.serverId, r.volumeId)) == Decode(handle)
  {
    var a, b := AcceptedHalves(handle);
    TrimKeepsCharacters(a);
    TrimKeepsCharacters(b);
    var r := Decode(handle).value;
    DecodeEncode(r.serverId, r.volumeId);
  }

  /** Two references that print alike are the same reference. */
  lemma EncodeInjective(s1: string, v1: string, s2: string, v2: string)
    requires HandlePart(s1) && HandlePart(v1) && HandlePart(s2) && HandlePart(v2)
    ensures Encode(s1, v1) == Encode(s2, v2) <==> Trim(s1) == Trim(s2) && Trim(v1) == Trim(v2)
  {
    DecodeEncode(s1, v1);
    DecodeEncode(s2, v2);
  }
}

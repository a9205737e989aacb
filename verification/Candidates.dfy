/**
 The list of candidate servers and the search for a volume on them.
 */
module Candidates {
  import opened Text
  import opened Volumes

  // ------------------------------------------------------------- candidates

  function TrimAll(values: seq<string>): (r: seq<string>)
    ensures |r| == |values| && forall k :: 0 <= k < |values| ==> r[k] == Trim(values[k])
  {
    seq(|values|, k requires 0 <= k < |values| => Trim(values[k]))
  }

  /** The non-empty values, each at its first occurrence. */
  function Firsts(xs: seq<string>): seq<string> {
    if xs == [] then []
    else
      var init, last := Firsts(xs[..|xs| - 1]), xs[|xs| - 1];
      if last == "" || last in init then init else init + [last]
  }

  function Unique(values: seq<string>): seq<string> {
    Firsts(TrimAll(values))
  }

  /** uniqueNonEmpty and uniqueStrings. */
  method UniqueNonEmpty(values: seq<string>) returns (result: seq<string>)
    ensures result == Unique(values)
  {
    var seen: set<string> := {};
    result := [];
    ghost var trimmed := TrimAll(values);
    for i := 0 to |values|
      invariant result == Firsts(trimmed[..i])
      invariant forall x :: x in seen <==> x in result
    {
      assert trimmed[..i + 1][..i] == trimmed[..i];
      var value := Trim(values[i]);
      if value != "" && value !in seen {
        seen := seen + {value};
        result := result + [value];
      }
    }
    assert trimmed[..|values|] == trimmed;
  }

  predicate NoRepeats(xs: seq<string>) {
    forall i, j :: 0 <= i < j < |xs| ==> xs[i] != xs[j]
  }

  /** x stands at position k and at no earlier position. */
  predicate FirstAt(xs: seq<string>, x: string, k: nat) {
    k < |xs| && xs[k] == x && x !in xs[..k]
  }

  lemma {:induction false} FirstsElements(xs: seq<string>)
    ensures NoRepeats(Firsts(xs))
    ensures forall x :: x in Firsts(xs) <==> x != "" && x in xs
  {
    if xs != [] {
      var init := xs[..|xs| - 1];
      FirstsElements(init);
      assert xs == init + [xs[|xs| - 1]];
    }
  }

  /** The result holds exactly the trimmed non-blank values, without repeats. */
  lemma UniqueElements(values: seq<string>)
    ensures NoRepeats(Unique(values))
    ensures forall x :: x in Unique(values) <==> x != "" && exists k :: 0 <= k < |values| && Trim(values[k]) == x
  {
    var trimmed := TrimAll(values);
    FirstsElements(trimmed);
    forall x | x in trimmed ensures exists k :: 0 <= k < |values| && Trim(values[k]) == x {
      var k :| 0 <= k < |trimmed| && trimmed[k] == x;
      assert Trim(values[k]) == x;
    }
    forall k | 0 <= k < |values| ensures Trim(values[k]) in trimmed {
      assert trimmed[k] in trimmed;
    }
  }

  /** Position at[i] is the first occurrence of the i-th value, and the positions increase. */
  predicate InOrder(xs: seq<string>, values: seq<string>, at: seq<nat>) {
    && |at| == |values|
    && (forall i, j :: 0 <= i < j < |at| ==> at[i] < at[j])
    && forall i :: 0 <= i < |at| ==> FirstAt(xs, values[i], at[i])
  }

  lemma InOrderExtends(init: seq<string>, x: string, values: seq<string>, at: seq<nat>)
    requires InOrder(init, values, at)
    ensures InOrder(init + [x], values, at)
    ensures x !in init ==> InOrder(init + [x], values + [x], at + [|init|])
  {
  }

  /** The values stand in the order of their first occurrences in xs. */
  lemma {:induction false} FirstsOrder(xs: seq<string>) returns (at: seq<nat>)
    ensures InOrder(xs, Firsts(xs), at)
  {
    at := [];
    if xs != [] {
      var n := |xs| - 1;
      at := FirstsOrder(xs[..n]);
      FirstsElements(xs[..n]);
      InOrderExtends(xs[..n], xs[n], Firsts(xs[..n]), at);
      assert xs == xs[..n] + [xs[n]];
      if Firsts(xs) != Firsts(xs[..n]) {
        at := at + [n];
      }
    }
  }

  /** The trimmed values stand in the order of their first occurrences. */
  lemma UniqueOrder(values: seq<string>) returns (at: seq<nat>)
    ensures InOrder(TrimAll(values), Unique(values), at)
  {
    at := FirstsOrder(TrimAll(values));
  }

  lemma {:induction false} FirstsOfTidy(xs: seq<string>)
    requires NoRepeats(xs) && "" !in xs
    ensures Firsts(xs) == xs
  {
    if xs != [] {
      var init := xs[..|xs| - 1];
      assert xs == init + [xs[|xs| - 1]];
      FirstsOfTidy(init);
    }
  }

  lemma UniqueIsTrimmed(values: seq<string>)
    ensures TrimAll(Unique(values)) == Unique(values)
  {
    FirstsElements(TrimAll(values));
    forall k | 0 <= k < |Unique(values)| ensures Trim(Unique(values)[k]) == Unique(values)[k] {
      assert Unique(values)[k] in TrimAll(values);
      var j :| 0 <= j < |values| && TrimAll(values)[j] == Unique(values)[k];
      assert Trimmed(Trim(values[j]));
    }
  }

  lemma UniqueIdempotent(values: seq<string>)
    ensures Unique(Unique(values)) == Unique(values)
  {
    FirstsElements(TrimAll(values));
    UniqueIsTrimmed(values);
    FirstsOfTidy(Unique(values));
  }

  // ----------------------------------------------------------------- search

  /** Servers whose description can be read, with their volumes; a GET of any other server fails. */
  type Servers = map<string, seq<Volume>>

  /** The descriptions that can be read while some servers do not answer. */
  function Answering(servers: Servers, down: set<string>): Servers {
    map s | s in servers && s !in down :: servers[s]
  }

  datatype SearchError = IdMissing | GetFailed(server: string) | NotOnCandidates
  datatype SearchResult = Found(server: string, volume: Volume) | SearchFailed(error: SearchError)

  function Search(servers: Servers, id: string, candidates: seq<string>): SearchResult {
    if candidates == [] then SearchFailed(NotOnCandidates)
    else if candidates[0] !in servers then SearchFailed(GetFailed(candidates[0]))
    else
      match ByID(servers[candidates[0]], id)
      case Some(v) => Found(candidates[0], v)
      case None => Search(servers, id, candidates[1..])
  }

  function Find(servers: Servers, volumeId: string, serverIds: seq<string>): SearchResult {
    if Blank(volumeId) then SearchFailed(IdMissing) else Search(servers, Trim(volumeId), Unique(serverIds))
  }

  method FindVolume(servers: Servers, volumeId: string, serverIds: seq<string>) returns (r: SearchResult)
    ensures r == Find(servers, volumeId, serverIds)
  {
    var id := Trim(volumeId);
    if id == "" {
      return SearchFailed(IdMissing);
    }
    var candidates := UniqueNonEmpty(serverIds);
    for i := 0 to |candidates|
      invariant Search(servers, id, candidates) == Search(servers, id, candidates[i..])
    {
      assert candidates[i..][1..] == candidates[i + 1..];
      if candidates[i] !in servers {
        return SearchFailed(GetFailed(candidates[i]));
      }
      var volume := FindVolumeByID(servers[candidates[i]], id);
      if volume.Some? {
        return Found(candidates[i], volume.value);
      }
    }
    r := SearchFailed(NotOnCandidates);
  }

  predicate Holds(servers: Servers, server: string, id: string) {
    server in servers && ByID(servers[server], id).Some?
  }

  /** Every candidate can be read. */
  predicate AllReadable(servers: Servers, candidates: seq<string>) {
    forall c :: c in candidates ==> c in servers
  }

  predicate OnOneAtMost(servers: Servers, id: string, candidates: seq<string>) {
    forall c, d :: c in candidates && d in candidates && Holds(servers, c, id) && Holds(servers, d, id) ==> c == d
  }

  /** What the search finds: the first holder, provided everything before it can be read. */
  lemma {:induction false} SearchExactly(servers: Servers, id: string, candidates: seq<string>)
    ensures var r := Search(servers, id, candidates);
            && (r.Found? ==>
                  && r.server in candidates && Holds(servers, r.server, id)
                  && ByID(servers[r.server], id) == Some(r.volume))
            && (AllReadable(servers, candidates) ==>
                (r.Found? <==> exists c :: c in candidates && Holds(servers, c, id)))
            && (AllReadable(servers, candidates) && !r.Found? ==> r == SearchFailed(NotOnCandidates))
  {
    if candidates != [] {
      SearchExactly(servers, id, candidates[1..]);
      assert candidates == [candidates[0]] + candidates[1..];
    }
  }

  /** The answer is the same on a list and on its deduplication. */
  lemma FindIgnoresRepeats(servers: Servers, volumeId: string, serverIds: seq<string>)
    ensures Find(servers, volumeId, Unique(serverIds)) == Find(servers, volumeId, serverIds)
  {
    UniqueIdempotent(serverIds);
  }

  /** A volume that is on one readable candidate at most is found there in whatever order the candidates come. */
  lemma FindIgnoresOrder(servers: Servers, volumeId: string, xs: seq<string>, ys: seq<string>)
    requires forall c :: c in Unique(xs) <==> c in Unique(ys)
    requires AllReadable(servers, Unique(xs))
    requires OnOneAtMost(servers, Trim(volumeId), Unique(xs))
    ensures Find(servers, volumeId, xs) == Find(servers, volumeId, ys)
  {
    SearchExactly(servers, Trim(volumeId), Unique(xs));
    SearchExactly(servers, Trim(volumeId), Unique(ys));
  }
}

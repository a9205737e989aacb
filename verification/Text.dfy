/**
 Go string operations the driver relies on: `strings.TrimSpace` and
 `strings.Split` with a one-character separator.
 */
module Text {

  datatype Option<+T> = None | Some(value: T)

  /** The characters `unicode.IsSpace` accepts. */
  predicate IsSpace(c: char) {
    || '\t' <= c <= '\r'
    || c in {' ', '\U{85}', '\U{A0}', '\U{1680}', '\U{2028}', '\U{2029}', '\U{202F}', '\U{205F}', '\U{3000}'}
    || '\U{2000}' <= c <= '\U{200A}'
  }

  predicate Trimmed(s: string) {
    s == "" || (!IsSpace(s[0]) && !IsSpace(s[|s| - 1]))
  }

  predicate AllSpace(s: string) {
    forall i :: 0 <= i < |s| ==> IsSpace(s[i])
  }

  function TrimLeft(s: string): string {
    if s != "" && IsSpace(s[0]) then TrimLeft(s[1..]) else s
  }

  function TrimRight(s: string): string {
    if s != "" && IsSpace(s[|s| - 1]) then TrimRight(s[..|s| - 1]) else s
  }

  lemma {:induction false} TrimLeftSuffix(s: string)
    ensures var r := TrimLeft(s);
            && (r == "" || !IsSpace(r[0]))
            && |r| <= |s| && r == s[|s| - |r|..] && AllSpace(s[..|s| - |r|])
  {
    if s != "" && IsSpace(s[0]) {
      TrimLeftSuffix(s[1..]);
      var n := |s| - |TrimLeft(s)|;
      assert s[..n] == [s[0]] + s[1..][..n - 1];
    }
  }

  lemma {:induction false} TrimRightPrefix(s: string)
    ensures var r := TrimRight(s);
            && (r == "" || !IsSpace(r[|r| - 1]))
            && |r| <= |s| && r == s[..|r|] && AllSpace(s[|r|..])
  {
    if s != "" && IsSpace(s[|s| - 1]) {
      TrimRightPrefix(s[..|s| - 1]);
      var n := |TrimRight(s)|;
      assert s[n..] == s[..|s| - 1][n..] + [s[|s| - 1]];
    }
  }

  /** strings.TrimSpace */
  function Trim(s: string): (r: string)
    ensures Trimmed(r)
    ensures Trimmed(s) ==> r == s
  {
    var l := TrimLeft(s);
    assert Trimmed(TrimRight(l)) by {
      TrimLeftSuffix(s);
      TrimRightPrefix(l);
    }
    TrimRight(l)
  }

  /** Trimming strips exactly a leading and a trailing run of spaces. */
  lemma TrimIsMiddle(s: string) returns (i: nat, j: nat)
    ensures i <= j <= |s| && Trim(s) == s[i..j]
    ensures AllSpace(s[..i]) && AllSpace(s[j..])
  {
    TrimLeftSuffix(s);
    TrimRightPrefix(TrimLeft(s));
    var l := TrimLeft(s);
    i := |s| - |l|;
    j := i + |TrimRight(l)|;
    assert s[j..] == l[|TrimRight(l)|..];
  }

  predicate Blank(s: string) {
    Trim(s) == ""
  }

  predicate HasPrefix(s: string, prefix: string) {
    |prefix| <= |s| && s[..|prefix|] == prefix
  }

  /** A prefix is what some rest follows. */
  lemma PrefixExactly(s: string, prefix: string)
    ensures HasPrefix(s, prefix) <==> exists rest :: s == prefix + rest
  {
    if HasPrefix(s, prefix) {
      assert s == prefix + s[|prefix|..];
    }
  }

  /** The first value that is not blank, or the empty string. */
  function FirstNonEmpty(a: string, b: string): string {
    if !Blank(a) then a else if !Blank(b) then b else ""
  }

  /** strings.Split for a one-character separator. */
  function Split(s: string, sep: char): (parts: seq<string>)
    ensures |parts| >= 1
  {
    if s == "" then [""]
    else
      var rest := Split(s[1..], sep);
      if s[0] == sep then [""] + rest else [[s[0]] + rest[0]] + rest[1..]
  }

  function Join(parts: seq<string>, sep: char): string
    requires |parts| >= 1
  {
    if |parts| == 1 then parts[0] else parts[0] + [sep] + Join(parts[1..], sep)
  }

  /** Splitting loses nothing, and no part contains the separator. */
  lemma {:induction false} JoinSplit(s: string, sep: char)
    ensures Join(Split(s, sep), sep) == s
    ensures forall k :: 0 <= k < |Split(s, sep)| ==> sep !in Split(s, sep)[k]
  {
    if s != "" {
      JoinSplit(s[1..], sep);
      var rest := Split(s[1..], sep);
      var parts := Split(s, sep);
      if s[0] == sep {
        assert parts[1..] == rest;
        assert s == [sep] + s[1..];
      } else {
        assert parts[1..] == rest[1..];
        assert s == [s[0]] + s[1..];
      }
    }
  }

  lemma {:induction false} SplitWithout(s: string, sep: char)
    requires sep !in s
    ensures Split(s, sep) == [s]
  {
    if s != "" {
      SplitWithout(s[1..], sep);
      assert s == [s[0]] + s[1..];
    }
  }

  lemma {:induction false} SplitOnce(a: string, b: string, sep: char)
    requires sep !in a && sep !in b
    ensures Split(a + [sep] + b, sep) == [a, b]
  {
    var s := a + [sep] + b;
    if a == "" {
      assert s[1..] == b;
      SplitWithout(b, sep);
    } else {
      assert s[1..] == a[1..] + [sep] + b;
      SplitOnce(a[1..], b, sep);
      assert a == [a[0]] + a[1..];
    }
  }
}

/** C string primitives the parsers rely on: `strchr` and the comma
    splitting that `parse_upstream_addrs` performs one token at a time. */
module Strings {
  import opened Wrappers

  /** Index of the first `c` in `s`, as `strchr` finds it. */
  function IndexOf(s: string, c: char): (r: Option<nat>)
    ensures r.None? <==> c !in s
    ensures r.Some? ==> r.value < |s| && s[r.value] == c
    ensures r.Some? ==> forall j :: 0 <= j < r.value ==> s[j] != c
    decreases |s|
  {
    if |s| == 0 then None
    else if s[0] == c then Some(0)
    else
      match IndexOf(s[1..], c)
      case None => None
      case Some(k) => Some(k + 1)
  }

  /** Any position holding the first `c` is the one `IndexOf` reports. */
  lemma IndexOfFirst(s: string, c: char, k: nat)
    requires k < |s| && s[k] == c
    requires forall j :: 0 <= j < k ==> s[j] != c
    ensures IndexOf(s, c) == Some(k)
  {
    assert s[k] in s;
  }

  /** In `a + [c] + b` with no `c` in `a`, the first `c` is the one
      after `a`. */
  lemma IndexOfAfter(a: string, c: char, b: string)
    requires c !in a
    ensures IndexOf(a + [c] + b, c) == Some(|a|)
  {
    var s := a + [c] + b;
    assert forall j :: 0 <= j < |a| ==> s[j] == a[j];
    IndexOfFirst(s, c, |a|);
  }

  /** The pieces between separators, left to right. */
  function Split(s: string, sep: char): (r: seq<string>)
    ensures |r| >= 1
    ensures forall i :: 0 <= i < |r| ==> sep !in r[i]
    decreases |s|
  {
    match IndexOf(s, sep)
    case None => [s]
    case Some(k) => [s[..k]] + Split(s[k + 1..], sep)
  }

  /** The pieces glued back together with the separator. */
  function Join(parts: seq<string>, sep: char): string
    requires |parts| >= 1
    decreases |parts|
  {
    if |parts| == 1 then parts[0] else parts[0] + [sep] + Join(parts[1..], sep)
  }

  /** Splitting loses nothing: joining the pieces gives back the input. */
  lemma {:induction false} SplitJoin(s: string, sep: char)
    ensures Join(Split(s, sep), sep) == s
    decreases |s|
  {
    var r := IndexOf(s, sep);
    if r.Some? {
      var k := r.value;
      var rest := s[k + 1..];
      assert Split(s, sep) == [s[..k]] + Split(rest, sep);
      SplitJoin(rest, sep);
      assert Join(Split(s, sep), sep) == s[..k] + [sep] + Join(Split(rest, sep), sep);
      assert s == s[..k] + [sep] + rest;
    }
  }

  /** Pieces free of the separator are recovered exactly by splitting. */
  lemma {:induction false} JoinSplit(parts: seq<string>, sep: char)
    requires |parts| >= 1
    requires forall i :: 0 <= i < |parts| ==> sep !in parts[i]
    ensures Split(Join(parts, sep), sep) == parts
    decreases |parts|
  {
    if |parts| > 1 {
      var s := Join(parts, sep);
      var rest := Join(parts[1..], sep);
      assert s == parts[0] + [sep] + rest;
      assert s[|parts[0]|] == sep;
      assert s[..|parts[0]|] == parts[0];
      IndexOfFirst(s, sep, |parts[0]|);
      assert s[|parts[0]| + 1..] == rest;
      JoinSplit(parts[1..], sep);
      assert parts == [parts[0]] + parts[1..];
    }
  }

  /** A trailing separator always leaves an empty last piece. */
  lemma {:induction false} SplitTrailingSeparator(s: string, sep: char)
    ensures var r := Split(s + [sep], sep); r[|r| - 1] == ""
    decreases |s|
  {
    var t := s + [sep];
    assert t[|s|] == sep;
    var k := IndexOf(t, sep).value;
    var r := Split(t, sep);
    assert r == [t[..k]] + Split(t[k + 1..], sep);
    if k == |s| {
      assert t[k + 1..] == "";
      assert Split(t[k + 1..], sep) == [""];
    } else {
      assert t[k + 1..] == s[k + 1..] + [sep];
      SplitTrailingSeparator(s[k + 1..], sep);
    }
  }
}

/** Python's `str.split(sep)` for a one-character separator, and its inverse `sep.join`. */
module Strings {

  /** The position of the first occurrence of `c` in `s`. */
  function IndexOf(s: string, c: char): (i: nat)
    requires c in s
    ensures i < |s| && s[i] == c && c !in s[..i]
  {
    if s[0] == c then 0 else 1 + IndexOf(s[1..], c)
  }

  /** `sep.join(parts)`. */
  function Join(parts: seq<string>, sep: char): string
    requires |parts| >= 1
  {
    if |parts| == 1 then parts[0] else parts[0] + [sep] + Join(parts[1..], sep)
  }

  /** `s.split(sep)`: the maximal separator-free pieces of `s`, in order; never empty. */
  function Split(s: string, sep: char): (parts: seq<string>)
    ensures |parts| >= 1
    ensures forall i :: 0 <= i < |parts| ==> sep !in parts[i]
    ensures Join(parts, sep) == s
    decreases |s|
  {
    if sep !in s then [s]
    else
      var i := IndexOf(s, sep);
      var rest := Split(s[i + 1..], sep);
      assert s == s[..i] + [sep] + s[i + 1..];
      assert ([s[..i]] + rest)[1..] == rest;
      [s[..i]] + rest
  }

  /** Splitting is the only way to cut `s` into separator-free pieces that join back to `s`. */
  lemma {:induction false} SplitUnique(s: string, sep: char, parts: seq<string>)
    requires |parts| >= 1
    requires forall i :: 0 <= i < |parts| ==> sep !in parts[i]
    requires Join(parts, sep) == s
    ensures Split(s, sep) == parts
    decreases |parts|
  {
    if |parts| == 1 {
      assert s == parts[0];
    } else {
      var tail := Join(parts[1..], sep);
      assert s == parts[0] + [sep] + tail;
      assert s[|parts[0]|] == sep;
      assert s[..|parts[0]|] == parts[0];
      assert sep in s;
      var i := IndexOf(s, sep);
      assert i == |parts[0]|;
      assert s[i + 1..] == tail;
      SplitUnique(tail, sep, parts[1..]);
      assert parts == [parts[0]] + parts[1..];
    }
  }

  /** The last piece of a join is a suffix of it, and unless it is the whole string it follows a separator. */
  lemma {:induction false} JoinLast(parts: seq<string>, sep: char)
    requires |parts| >= 1
    ensures var s, r := Join(parts, sep), parts[|parts| - 1];
      |r| <= |s| && s[|s| - |r|..] == r && (|parts| > 1 ==> |r| < |s| && s[|s| - |r| - 1] == sep)
  {
    if |parts| > 1 {
      JoinLast(parts[1..], sep);
      var tail := Join(parts[1..], sep);
      var s := Join(parts, sep);
      var r := parts[|parts| - 1];
      assert s == parts[0] + [sep] + tail;
      assert s[|s| - |tail|..] == tail;
      assert s[|s| - |tail| - 1] == sep;
      if |parts| > 2 {
        assert s[|s| - |r|..] == tail[|tail| - |r|..];
      } else {
        assert r == tail;
      }
    }
  }
}

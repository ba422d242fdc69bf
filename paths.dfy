/**
 * `construct_path`: renders the segments of a key path as a dotted TOML key,
 * each segment bare when TOML allows it and double-quoted otherwise.
 */
module Paths {

  /** A character allowed in a bare TOML key: ASCII letter, digit, `_` or `-`. */
  predicate IsBareChar(c: char) {
    ('A' <= c <= 'Z') || ('a' <= c <= 'z') || ('0' <= c <= '9') || c == '_' || c == '-'
  }

  predicate IsBareKey(s: string) {
    |s| > 0 && forall i :: 0 <= i < |s| ==> IsBareChar(s[i])
  }

  /** One segment as the TOML writer renders a key. */
  function RenderKey(s: string): (r: string)
    ensures |r| > 0
    ensures IsBareKey(s) ==> '.' !in r
  {
    if IsBareKey(s) then s else "\"" + s + "\""
  }

  /** The segments rendered and joined with `.`. */
  function ConstructPath(path: seq<string>): (r: string)
    ensures r == [] <==> |path| == 0
    ensures |path| > 0 ==> RenderKey(path[0]) <= r
  {
    if |path| == 0 then ""
    else if |path| == 1 then RenderKey(path[0])
    else RenderKey(path[0]) + "." + ConstructPath(path[1..])
  }

  /** Python's `s.split('.')`. */
  function Split(s: string): (r: seq<string>)
    ensures |r| >= 1
  {
    if s == [] then [""]
    else
      var rest := Split(s[1..]);
      if s[0] == '.' then [""] + rest else [[s[0]] + rest[0]] + rest[1..]
  }

  lemma {:induction false} SplitWithoutDot(a: string)
    requires '.' !in a
    ensures Split(a) == [a]
  {
    if a != [] {
      assert a[0] != '.' by { assert a[0] in a; }
      SplitWithoutDot(a[1..]);
      assert [a[0]] + a[1..] == a;
    }
  }

  lemma {:induction false} SplitAfterSegment(a: string, t: string)
    requires '.' !in a
    ensures Split(a + "." + t) == [a] + Split(t)
  {
    if a == [] {
      assert a + "." + t == "." + t;
      assert ("." + t)[1..] == t;
    } else {
      assert (a + "." + t)[1..] == a[1..] + "." + t;
      SplitAfterSegment(a[1..], t);
      assert [a[0]] + a[1..] == a;
    }
  }

  /** A path of bare keys is recovered from its rendering by splitting at `.`. */
  lemma {:induction false} ConstructPathRoundTrip(path: seq<string>)
    requires |path| > 0
    requires forall i :: 0 <= i < |path| ==> IsBareKey(path[i])
    ensures Split(ConstructPath(path)) == path
  {
    if |path| == 1 {
      SplitWithoutDot(path[0]);
    } else {
      ConstructPathRoundTrip(path[1..]);
      SplitAfterSegment(path[0], ConstructPath(path[1..]));
      assert [path[0]] + path[1..] == path;
    }
  }
}

/**
 * The PHP string built-ins the plugin leans on, over `seq<char>`:
 * `explode` with a one-character delimiter (Split), `implode` (Join) and
 * `strpos` for one character (IndexOf).
 */
module Strings {

  datatype Option<T> = None | Some(value: T)

  /** `strpos(s, c)`: the index of the first occurrence of `c`, if any. */
  function IndexOf(s: string, c: char): (r: Option<nat>)
    ensures r.Some? ==> r.value < |s|
  {
    IndexFrom(s, c, 0)
  }

  /** The index of the first occurrence of `c` at or after `k`, if any. */
  function IndexFrom(s: string, c: char, k: nat): (r: Option<nat>)
    requires k <= |s|
    ensures r.Some? ==> k <= r.value < |s|
    decreases |s| - k
  {
    if k == |s| then None
    else if s[k] == c then Some(k)
    else IndexFrom(s, c, k + 1)
  }

  /** The search finds the first occurrence at or after `k`, or reports that there is none. */
  lemma {:induction false} IndexFromSpec(s: string, c: char, k: nat)
    requires k <= |s|
    ensures IndexFrom(s, c, k).None? ==> forall j :: k <= j < |s| ==> s[j] != c
    ensures IndexFrom(s, c, k).Some? ==>
      var i := IndexFrom(s, c, k).value;
      k <= i < |s| && s[i] == c && forall j :: k <= j < i ==> s[j] != c
    decreases |s| - k
  {
    if k < |s| && s[k] != c {
      IndexFromSpec(s, c, k + 1);
    }
  }

  /** `strpos` finds the first occurrence of `c`, or reports that there is none. */
  lemma IndexOfSpec(s: string, c: char)
    ensures IndexOf(s, c).None? <==> c !in s
    ensures IndexOf(s, c).Some? ==>
      var i := IndexOf(s, c).value;
      i < |s| && s[i] == c && c !in s[..i]
  {
    IndexFromSpec(s, c, 0);
  }

  /** The number of occurrences of `c` in `s`. */
  function Count(s: string, c: char): nat
    decreases |s|
  {
    if |s| == 0 then 0 else (if s[0] == c then 1 else 0) + Count(s[1..], c)
  }

  /**
   * `explode(d, s)`: the pieces of `s` between occurrences of `d`. Like
   * PHP's explode, the empty string gives one empty piece, and there is
   * always one piece more than there are delimiters.
   */
  function Split(s: string, d: char): (parts: seq<string>)
    ensures |parts| == Count(s, d) + 1
    ensures forall i :: 0 <= i < |parts| ==> d !in parts[i]
    decreases |s|
  {
    if |s| == 0 then [""]
    else
      var rest := Split(s[1..], d);
      assert s == [s[0]] + s[1..];
      if s[0] == d then [""] + rest
      else [[s[0]] + rest[0]] + rest[1..]
  }

  /** `implode(d, parts)`: the pieces glued together with `d` between them. */
  function Join(parts: seq<string>, d: char): string
    decreases |parts|
  {
    if |parts| == 0 then ""
    else if |parts| == 1 then parts[0]
    else parts[0] + [d] + Join(parts[1..], d)
  }

  /** Joining pieces that avoid a character `c` other than the glue avoids `c`. */
  lemma {:induction false} JoinAvoids(parts: seq<string>, d: char, c: char)
    requires c != d
    requires forall i :: 0 <= i < |parts| ==> c !in parts[i]
    ensures c !in Join(parts, d)
    decreases |parts|
  {
    if |parts| > 1 {
      JoinAvoids(parts[1..], d, c);
      assert c !in parts[0];
    }
  }

  /** Splitting and joining again gives back the original string. */
  lemma {:induction false} JoinSplit(s: string, d: char)
    ensures Join(Split(s, d), d) == s
    decreases |s|
  {
    if |s| > 0 {
      var rest := Split(s[1..], d);
      JoinSplit(s[1..], d);
      assert s == [s[0]] + s[1..];
      if s[0] == d {
        var parts := [""] + rest;
        assert parts[1..] == rest;
        assert Join(parts, d) == "" + [d] + Join(rest, d);
      } else if |rest| == 1 {
        assert Join(rest, d) == rest[0];
      } else {
        var parts := [[s[0]] + rest[0]] + rest[1..];
        assert parts[1..] == rest[1..];
        assert Join(parts, d) == [s[0]] + rest[0] + [d] + Join(rest[1..], d);
        assert Join(rest, d) == rest[0] + [d] + Join(rest[1..], d);
      }
    }
  }

  /** A string without the delimiter is one piece. */
  lemma {:induction false} SplitWithout(a: string, d: char)
    requires d !in a
    ensures Split(a, d) == [a]
    decreases |a|
  {
    if |a| > 0 {
      assert a[1..] == a[1..] && d !in a[1..];
      SplitWithout(a[1..], d);
      assert [a[0]] + a[1..] == a;
    }
  }

  /** A delimiter-free prefix followed by the delimiter is the first piece. */
  lemma {:induction false} SplitAfterPiece(a: string, d: char, b: string)
    requires d !in a
    ensures Split(a + [d] + b, d) == [a] + Split(b, d)
    decreases |a|
  {
    var s := a + [d] + b;
    if |a| == 0 {
      assert s[1..] == b;
    } else {
      assert s[1..] == a[1..] + [d] + b;
      SplitAfterPiece(a[1..], d, b);
      assert [a[0]] + a[1..] == a;
    }
  }

  /**
   * Joining pieces that do not contain the delimiter and splitting again
   * gives back the pieces. There must be at least one piece, because the
   * empty string splits into one empty piece.
   */
  lemma {:induction false} SplitJoin(parts: seq<string>, d: char)
    requires |parts| >= 1
    requires forall i :: 0 <= i < |parts| ==> d !in parts[i]
    ensures Split(Join(parts, d), d) == parts
    decreases |parts|
  {
    if |parts| == 1 {
      SplitWithout(parts[0], d);
    } else {
      SplitJoin(parts[1..], d);
      SplitAfterPiece(parts[0], d, Join(parts[1..], d));
      assert [parts[0]] + parts[1..] == parts;
    }
  }
}

/**
 * The two JavaScript string built-ins the decoder relies on:
 * `String.prototype.split` with a one-character separator and
 * `String.prototype.slice` with non-negative bounds.
 */
module Strings {

  /** Glues fields back together with `sep` between neighbours (Array.prototype.join). */
  function Join(fields: seq<string>, sep: char): string
    decreases |fields|
  {
    if fields == [] then []
    else if |fields| == 1 then fields[0]
    else fields[0] + [sep] + Join(fields[1..], sep)
  }

  /**
   * `s.split(sep)`: the maximal runs between separators, in order. There is
   * always at least one field (`"".split(",")` is `[""]`), no field holds the
   * separator, and joining the fields gives back the input.
   */
  function Split(s: string, sep: char): (fields: seq<string>)
    ensures |fields| >= 1
    ensures forall i :: 0 <= i < |fields| ==> sep !in fields[i]
    ensures Join(fields, sep) == s
    decreases |s|
  {
    if s == [] then [[]]
    else
      var rest := Split(s[1..], sep);
      if s[0] == sep then
        assert Join([[]] + rest, sep) == [sep] + Join(rest, sep);
        [[]] + rest
      else
        var fields := [[s[0]] + rest[0]] + rest[1..];
        assert fields[1..] == rest[1..];
        assert Join(fields, sep) == [s[0]] + Join(rest, sep);
        fields
  }

  /** Splitting a field that has no separator and the rest of the line. */
  lemma {:induction false} SplitCons(a: string, sep: char, t: string)
    requires sep !in a
    ensures Split(a + [sep] + t, sep) == [a] + Split(t, sep)
    decreases |a|
  {
    if a == [] {
      assert a + [sep] + t == [sep] + t;
      assert ([sep] + t)[1..] == t;
    } else {
      var line := a + [sep] + t;
      assert line[0] == a[0] && line[0] != sep;
      assert line[1..] == a[1..] + [sep] + t;
      SplitCons(a[1..], sep, t);
      var rest := Split(line[1..], sep);
      assert rest[0] == a[1..] && rest[1..] == Split(t, sep);
      assert [a[0]] + a[1..] == a;
    }
  }

  /** A string without the separator is a single field. */
  lemma {:induction false} SplitNoSeparator(a: string, sep: char)
    requires sep !in a
    ensures Split(a, sep) == [a]
    decreases |a|
  {
    if a != [] {
      SplitNoSeparator(a[1..], sep);
      assert [a[0]] + a[1..] == a;
    }
  }

  /** Split undoes Join whenever no field holds the separator. */
  lemma {:induction false} SplitJoin(fields: seq<string>, sep: char)
    requires |fields| >= 1
    requires forall i :: 0 <= i < |fields| ==> sep !in fields[i]
    ensures Split(Join(fields, sep), sep) == fields
    decreases |fields|
  {
    if |fields| == 1 {
      SplitNoSeparator(fields[0], sep);
    } else {
      SplitJoin(fields[1..], sep);
      SplitCons(fields[0], sep, Join(fields[1..], sep));
      assert [fields[0]] + fields[1..] == fields;
    }
  }

  /** `s.slice(0, n)`: the first n characters, or all of s when it is shorter. */
  function Take(s: string, n: nat): (r: string)
    ensures |r| == if |s| < n then |s| else n
    ensures r + Drop(s, n) == s
  {
    if |s| <= n then s else s[..n]
  }

  /** `s.slice(n)`: what follows the first n characters, or "" when s is shorter. */
  function Drop(s: string, n: nat): (r: string)
    ensures |r| == if |s| < n then 0 else |s| - n
  {
    if |s| <= n then [] else s[n..]
  }

  /** Slicing a concatenation at the length of its first part gives the parts back. */
  lemma TakeDropAppend(a: string, b: string)
    ensures Take(a + b, |a|) == a && Drop(a + b, |a|) == b
  {
    if b == [] {
      assert a + b == a;
    } else {
      assert (a + b)[..|a|] == a;
      assert (a + b)[|a|..] == b;
    }
  }
}

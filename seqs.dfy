/** `Array.prototype.join` and `String.prototype.split` on sequences, with the
    round trip between them. */
module Seqs {

  /** `parts.join(sep)`: the parts with one separator between neighbours. */
  function Join<T>(parts: seq<seq<T>>, sep: T): (r: seq<T>)
    ensures |parts| == 1 ==> r == parts[0]
    ensures |parts| > 0 ==> |r| == Length(parts) + |parts| - 1
  {
    if |parts| == 0 then []
    else if |parts| == 1 then parts[0]
    else parts[0] + [sep] + Join(parts[1..], sep)
  }

  /** A join starts with its first part and ends with its last one. */
  lemma {:induction false} JoinEnds<T>(parts: seq<seq<T>>, sep: T)
    requires |parts| > 0
    ensures parts[0] <= Join(parts, sep)
    ensures var r := Join(parts, sep); var last := parts[|parts| - 1];
      |last| <= |r| && r[|r| - |last|..] == last
  {
    if |parts| > 1 {
      JoinEnds(parts[1..], sep);
      var rest := Join(parts[1..], sep);
      var last := parts[|parts| - 1];
      assert parts[1..][|parts[1..]| - 1] == last;
      assert (parts[0] + [sep] + rest)[|parts[0] + [sep] + rest| - |last|..] == rest[|rest| - |last|..];
    }
  }

  /** The total length of the parts. */
  function Length<T>(parts: seq<seq<T>>): nat {
    if |parts| == 0 then 0 else |parts[0]| + Length(parts[1..])
  }

  /** All parts glued together, without separators. */
  function Flatten<T>(parts: seq<seq<T>>): seq<T> {
    if |parts| == 0 then [] else parts[0] + Flatten(parts[1..])
  }

  /** `s` with every occurrence of `x` deleted. */
  function Remove<T(==)>(s: seq<T>, x: T): (r: seq<T>)
    ensures x !in r
    ensures |r| <= |s|
  {
    if |s| == 0 then []
    else if s[0] == x then Remove(s[1..], x)
    else [s[0]] + Remove(s[1..], x)
  }

  /** `s.split(sep)`: the maximal runs between separators, including empty ones. */
  function Split<T(==)>(s: seq<T>, sep: T): (r: seq<seq<T>>)
    ensures |r| > 0
    ensures forall i :: 0 <= i < |r| ==> sep !in r[i]
    decreases |s|
  {
    if |s| == 0 then [[]]
    else
      var rest := Split(s[1..], sep);
      if s[0] == sep then [[]] + rest
      else [[s[0]] + rest[0]] + rest[1..]
  }

  /** No part contains the separator. */
  predicate Free<T(==)>(parts: seq<seq<T>>, sep: T) {
    forall i :: 0 <= i < |parts| ==> sep !in parts[i]
  }

  lemma {:induction false} SplitPrefix<T>(p: seq<T>, rest: seq<T>, sep: T)
    requires sep !in p
    ensures Split(p + [sep] + rest, sep) == [p] + Split(rest, sep)
    ensures Split(p, sep) == [p]
    decreases |p|
  {
    if |p| == 0 {
      assert p + [sep] + rest == [sep] + rest;
      assert ([sep] + rest)[1..] == rest;
    } else {
      assert (p + [sep] + rest)[1..] == p[1..] + [sep] + rest;
      SplitPrefix(p[1..], rest, sep);
      assert [p[0]] + p[1..] == p;
    }
  }

  /** Splitting a join on its separator gives back the parts, when no part
      contains the separator and there is at least one part. */
  lemma {:induction false} SplitJoin<T>(parts: seq<seq<T>>, sep: T)
    requires |parts| > 0 && Free(parts, sep)
    ensures Split(Join(parts, sep), sep) == parts
  {
    if |parts| == 1 {
      SplitPrefix(parts[0], [], sep);
    } else {
      SplitJoin(parts[1..], sep);
      SplitPrefix(parts[0], Join(parts[1..], sep), sep);
      assert [parts[0]] + parts[1..] == parts;
    }
  }

  /** Deleting the separators from a join glues the parts together. */
  lemma {:induction false} RemoveJoin<T>(parts: seq<seq<T>>, sep: T)
    requires Free(parts, sep)
    ensures Remove(Join(parts, sep), sep) == Flatten(parts)
  {
    if |parts| == 1 {
      RemoveFree(parts[0], sep);
      assert Flatten(parts) == parts[0] + Flatten(parts[1..]);
      assert parts[0] + [] == parts[0];
    } else if |parts| > 1 {
      RemoveJoin(parts[1..], sep);
      RemoveConcat(parts[0] + [sep], Join(parts[1..], sep), sep);
      RemoveConcat(parts[0], [sep], sep);
      RemoveFree(parts[0], sep);
      assert Remove([sep], sep) == [];
    }
  }

  lemma {:induction false} RemoveFree<T>(s: seq<T>, x: T)
    requires x !in s
    ensures Remove(s, x) == s
  {
    if |s| > 0 {
      RemoveFree(s[1..], x);
      assert [s[0]] + s[1..] == s;
    }
  }

  lemma {:induction false} RemoveConcat<T>(a: seq<T>, b: seq<T>, x: T)
    ensures Remove(a + b, x) == Remove(a, x) + Remove(b, x)
  {
    if |a| == 0 {
      assert a + b == b;
    } else {
      assert (a + b)[1..] == a[1..] + b;
      RemoveConcat(a[1..], b, x);
    }
  }
}

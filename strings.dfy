/** The string built-ins the modelled code calls: `toUpperCase` (restricted to
    ASCII), `split` on a one-character separator, `join` and `slice(0, n)`. */
module Strings {

  function Min(a: int, b: int): (m: int) { if a <= b then a else b }

  /** An ASCII lower-case letter. */
  predicate IsLower(c: char) { 'a' <= c <= 'z' }

  /** No character of `s` is an ASCII lower-case letter. */
  predicate NoLower(s: string) { forall i :: 0 <= i < |s| ==> !IsLower(s[i]) }

  /** ASCII upper-casing of one character: `a`-`z` become `A`-`Z`, every other
      character is kept. */
  function UpperChar(c: char): (u: char)
    ensures !IsLower(u)
    ensures !IsLower(c) ==> u == c
    ensures IsLower(c) ==> 'A' <= u <= 'Z' && u as int - 'A' as int == c as int - 'a' as int
  {
    if IsLower(c) then (c as int - 'a' as int + 'A' as int) as char else c
  }

  /** `s.toUpperCase()`, restricted to ASCII case mapping. */
  function Upper(s: string): (r: string)
    ensures |r| == |s|
    ensures forall i :: 0 <= i < |s| ==> r[i] == UpperChar(s[i])
    ensures NoLower(r)
  {
    if s == [] then [] else [UpperChar(s[0])] + Upper(s[1..])
  }

  /** `s.slice(0, n)` for a non-negative `n`: at most the first `n` characters. */
  function Prefix(s: string, n: nat): (r: string)
    ensures |r| == Min(n, |s|)
    ensures r <= s
  {
    s[..Min(n, |s|)]
  }

  /** `parts.join(sep)`: the parts in order with `sep` between neighbours.
      `Split` undoes it (`SplitJoin`). */
  function Join(parts: seq<string>, sep: string): (r: string)
    ensures parts == [] ==> r == []
    ensures |parts| == 1 ==> r == parts[0]
    ensures parts != [] ==> parts[0] <= r
  {
    if |parts| == 0 then []
    else if |parts| == 1 then parts[0]
    else parts[0] + sep + Join(parts[1..], sep)
  }

  lemma JoinCons(a: string, rest: seq<string>, sep: string)
    requires rest != []
    ensures Join([a] + rest, sep) == a + sep + Join(rest, sep)
  {
  }

  /** Joining with the empty separator is plain concatenation. */
  lemma JoinEmptySep(a: string, rest: seq<string>)
    ensures Join([a] + rest, []) == a + Join(rest, [])
  {
  }

  /** `s.split(sep)` for a one-character separator: the pieces between the
      separators, including the empty ones before, after and between adjacent
      separators. */
  function Split(s: string, sep: char): (pieces: seq<string>)
    ensures |pieces| >= 1
    ensures forall i :: 0 <= i < |pieces| ==> sep !in pieces[i]
    ensures Join(pieces, [sep]) == s
  {
    if s == [] then [[]]
    else
      var rest := Split(s[1..], sep);
      if s[0] == sep then
        JoinCons([], rest, [sep]);
        [[]] + rest
      else
        var first := [s[0]] + rest[0];
        if |rest| == 1 then
          [first]
        else
          JoinCons(first, rest[1..], [sep]);
          JoinCons(rest[0], rest[1..], [sep]);
          assert rest == [rest[0]] + rest[1..];
          [first] + rest[1..]
  }

  /** The number of characters before the first `sep` in `s` (all of `s` if
      there is none). */
  function RunLength(s: string, sep: char): (n: nat)
    ensures n <= |s|
    ensures sep !in s[..n]
    ensures n < |s| ==> s[n] == sep
  {
    if s == [] || s[0] == sep then 0
    else
      var m := RunLength(s[1..], sep);
      assert s[..m + 1] == [s[0]] + s[1..][..m];
      m + 1
  }

  /** A joined string has the separator right after its first part. */
  lemma JoinSepAt(parts: seq<string>, sep: char)
    requires |parts| >= 2
    ensures |parts[0]| < |Join(parts, [sep])|
    ensures Join(parts, [sep])[..|parts[0]|] == parts[0]
    ensures Join(parts, [sep])[|parts[0]|] == sep
    ensures Join(parts, [sep])[|parts[0]| + 1..] == Join(parts[1..], [sep])
  {
  }

  /** Splitting is the only way to cut a string into separator-free pieces
      that join back to it. */
  lemma {:induction false} SplitUnique(p: seq<string>, q: seq<string>, sep: char)
    requires |p| >= 1 && |q| >= 1
    requires forall i :: 0 <= i < |p| ==> sep !in p[i]
    requires forall i :: 0 <= i < |q| ==> sep !in q[i]
    requires Join(p, [sep]) == Join(q, [sep])
    ensures p == q
  {
    var s := Join(p, [sep]);
    if |p| == 1 && |q| == 1 {
    } else if |p| == 1 {
      JoinSepAt(q, sep);
    } else if |q| == 1 {
      JoinSepAt(p, sep);
    } else {
      JoinSepAt(p, sep);
      JoinSepAt(q, sep);
      SplitUnique(p[1..], q[1..], sep);
      assert p == [p[0]] + p[1..] && q == [q[0]] + q[1..];
    }
  }

  /** Round trip: splitting a join of separator-free parts gives the parts
      back. It fails for the empty part list, whose join "" splits to [""]. */
  lemma SplitJoin(parts: seq<string>, sep: char)
    requires |parts| >= 1
    requires forall i :: 0 <= i < |parts| ==> sep !in parts[i]
    ensures Split(Join(parts, [sep]), sep) == parts
  {
    SplitUnique(Split(Join(parts, [sep]), sep), parts, sep);
  }

  /** Cutting at a separator: the part before it, then the split of the rest. */
  lemma SplitAtSep(a: string, t: string, sep: char)
    requires sep !in a
    ensures Split(a + [sep] + t, sep) == [a] + Split(t, sep)
  {
    var rest := Split(t, sep);
    var p := [a] + rest;
    JoinCons(a, rest, [sep]);
    assert forall i :: 0 <= i < |p| ==> sep !in p[i] by {
      forall i | 0 <= i < |p| ensures sep !in p[i] {
        if i > 0 { assert p[i] == rest[i - 1]; }
      }
    }
    SplitUnique(Split(a + [sep] + t, sep), p, sep);
  }

  /** The first piece of a split runs up to the first separator; the remaining
      pieces are the split of what follows it. */
  lemma SplitAtFirst(s: string, sep: char)
    ensures var n := RunLength(s, sep);
      Split(s, sep) == [s[..n]] + (if n == |s| then [] else Split(s[n + 1..], sep))
  {
    var n := RunLength(s, sep);
    if n < |s| {
      assert s == s[..n] + [sep] + s[n + 1..];
      SplitAtSep(s[..n], s[n + 1..], sep);
    } else {
      assert s[..n] == s;
      SplitWithoutSep(s, sep);
    }
  }

  /** A string without the separator splits into itself alone. */
  lemma SplitWithoutSep(s: string, sep: char)
    requires sep !in s
    ensures Split(s, sep) == [s]
  {
  }
}

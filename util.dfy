/** Sequence and string helpers shared by the scripts' models: the Python
    built-ins they lean on (`str.replace(p, "")`, `str.split`, `str.rsplit`,
    `sep.join`, list concatenation) written out over `seq`. */
module Util {

  datatype Option<T> = None | Some(value: T)

  function Min(a: int, b: int): int { if a <= b then a else b }

  /** `[f(x) for x in s]`. */
  function Map<A, B>(f: A -> B, s: seq<A>): (r: seq<B>)
    ensures |r| == |s|
    ensures forall i :: 0 <= i < |s| ==> r[i] == f(s[i])
  {
    seq(|s|, i requires 0 <= i < |s| => f(s[i]))
  }

  /** `[x for x in s if p(x)]`. */
  function Filter<T>(p: T -> bool, s: seq<T>): (r: seq<T>)
    ensures |r| <= |s|
    ensures forall x :: x in r ==> x in s && p(x)
  {
    if s == [] then [] else
    var init := Filter(p, s[..|s| - 1]);
    if p(s[|s| - 1]) then init + [s[|s| - 1]] else init
  }

  lemma {:induction false} FilterKeeps<T>(p: T -> bool, s: seq<T>, x: T)
    requires x in s && p(x)
    ensures x in Filter(p, s)
  {
    if s[|s| - 1] != x {
      assert x in s[..|s| - 1] by {
        var i :| 0 <= i < |s| && s[i] == x;
        assert i < |s| - 1 && s[..|s| - 1][i] == x;
      }
      FilterKeeps(p, s[..|s| - 1], x);
    }
  }

  /** Filtering distributes over concatenation, so the kept elements keep
      their relative order. */
  lemma {:induction false} FilterConcat<T>(p: T -> bool, a: seq<T>, b: seq<T>)
    ensures Filter(p, a + b) == Filter(p, a) + Filter(p, b)
  {
    if b != [] {
      assert (a + b)[..|a + b| - 1] == a + b[..|b| - 1];
      FilterConcat(p, a, b[..|b| - 1]);
    } else {
      assert a + b == a;
    }
  }

  lemma MapSnoc<A, B>(f: A -> B, s: seq<A>, x: A)
    ensures Map(f, s + [x]) == Map(f, s) + [f(x)]
  {
  }

  /** Filtering after a map by `p` is mapping after filtering by a test `q`
      that says what `p` says of the image. */
  lemma {:induction false} FilterMap<A, B>(p: B -> bool, f: A -> B, q: A -> bool, s: seq<A>)
    requires forall x :: q(x) == p(f(x))
    ensures Filter(p, Map(f, s)) == Map(f, Filter(q, s))
  {
    if s != [] {
      var init, last := s[..|s| - 1], s[|s| - 1];
      FilterMap(p, f, q, init);
      assert s == init + [last];
      MapSnoc(f, init, last);
      var fs := Map(f, s);
      assert fs[..|fs| - 1] == Map(f, init) && fs[|fs| - 1] == f(last);
      if q(last) {
        MapSnoc(f, Filter(q, init), last);
      }
    }
  }

  /** Two filters in a row are one filter by the conjunction `pq`. */
  lemma {:induction false} FilterFilter<T>(p: T -> bool, q: T -> bool, pq: T -> bool, s: seq<T>)
    requires forall x :: pq(x) == (p(x) && q(x))
    ensures Filter(q, Filter(p, s)) == Filter(pq, s)
  {
    if s != [] {
      var init := s[..|s| - 1];
      FilterFilter(p, q, pq, init);
      var fp := Filter(p, init);
      if p(s[|s| - 1]) {
        assert (fp + [s[|s| - 1]])[..|fp|] == fp;
      }
    }
  }

  /** Concatenation of a list of lists, `pd.concat` / `itertools.chain`. */
  function Flatten<T>(xss: seq<seq<T>>): (r: seq<T>)
  {
    if xss == [] then [] else Flatten(xss[..|xss| - 1]) + xss[|xss| - 1]
  }

  lemma {:induction false} FlattenConcat<T>(a: seq<seq<T>>, b: seq<seq<T>>)
    ensures Flatten(a + b) == Flatten(a) + Flatten(b)
  {
    if b == [] {
      assert a + b == a;
    } else {
      var ab, init, last := a + b, b[..|b| - 1], b[|b| - 1];
      assert ab[..|ab| - 1] == a + init && ab[|ab| - 1] == last;
      FlattenConcat(a, init);
      assert Flatten(ab) == Flatten(a + init) + last;
      assert Flatten(b) == Flatten(init) + last;
    }
  }

  /** Every element of a flattened list comes from one of the parts, and
      every element of every part is in the flattened list. */
  lemma {:induction false} FlattenMembers<T>(xss: seq<seq<T>>, x: T)
    ensures x in Flatten(xss) <==> exists i :: 0 <= i < |xss| && x in xss[i]
  {
    if xss != [] {
      var init := xss[..|xss| - 1];
      FlattenMembers(init, x);
      if x in Flatten(xss) && x !in xss[|xss| - 1] {
        var i :| 0 <= i < |init| && x in init[i];
        assert xss[i] == init[i];
      }
      if exists i :: 0 <= i < |xss| && x in xss[i] {
        var i :| 0 <= i < |xss| && x in xss[i];
        if i < |init| {
          assert init[i] == xss[i];
        }
      }
    }
  }

  /** `"".join(x + t for x in xs)`: every element followed by the terminator. */
  function Terminated(xs: seq<string>, t: string): (r: string)
  {
    if xs == [] then [] else Terminated(xs[..|xs| - 1], t) + xs[|xs| - 1] + t
  }

  lemma {:induction false} TerminatedCons(x: string, ys: seq<string>, t: string)
    ensures Terminated([x] + ys, t) == x + t + Terminated(ys, t)
  {
    if ys == [] {
      assert [x] + ys == [x];
      assert [x][..0] == [];
    } else {
      assert ([x] + ys)[..|[x] + ys| - 1] == [x] + ys[..|ys| - 1];
      TerminatedCons(x, ys[..|ys| - 1], t);
    }
  }

  /** `sep.join(xs)`. */
  function Join(xs: seq<string>, sep: string): (r: string)
  {
    if |xs| == 0 then [] else if |xs| == 1 then xs[0] else xs[0] + sep + Join(xs[1..], sep)
  }

  /** A join is every element but the last followed by the separator, then
      the last element: no separator after the last one. */
  lemma {:induction false} JoinAsTerminated(xs: seq<string>, sep: string)
    requires |xs| > 0
    ensures Join(xs, sep) == Terminated(xs[..|xs| - 1], sep) + xs[|xs| - 1]
  {
    if |xs| > 1 {
      JoinAsTerminated(xs[1..], sep);
      assert xs[..|xs| - 1] == [xs[0]] + xs[1..][..|xs[1..]| - 1];
      TerminatedCons(xs[0], xs[1..][..|xs[1..]| - 1], sep);
    }
  }

  /** Joining two non-empty lists puts one separator between them. */
  lemma {:induction false} JoinConcat(xs: seq<string>, ys: seq<string>, sep: string)
    requires |xs| > 0 && |ys| > 0
    ensures Join(xs + ys, sep) == Join(xs, sep) + sep + Join(ys, sep)
  {
    assert (xs + ys)[0] == xs[0];
    if |xs| == 1 {
      assert (xs + ys)[1..] == ys;
    } else {
      assert (xs + ys)[1..] == xs[1..] + ys;
      JoinConcat(xs[1..], ys, sep);
    }
  }

  /** `x + a` for every `x`. */
  function Suffixed(a: string): string -> string
  {
    x => x + a
  }

  /** Joining with a two-part separator `a + b` is joining with `b` after
      appending `a` to every element but the last. */
  lemma {:induction false} JoinSplitSeparator(xs: seq<string>, a: string, b: string)
    requires |xs| > 0
    ensures Join(xs, a + b) == Join(Map(Suffixed(a), xs[..|xs| - 1]) + [xs[|xs| - 1]], b)
  {
    var ys := Map(Suffixed(a), xs[..|xs| - 1]) + [xs[|xs| - 1]];
    if |xs| == 1 {
      assert ys == [xs[0]];
    } else {
      var tl := xs[1..];
      JoinSplitSeparator(tl, a, b);
      var rest := Map(Suffixed(a), tl[..|tl| - 1]) + [tl[|tl| - 1]];
      assert ys == [xs[0] + a] + rest;
      assert ys[1..] == rest;
    }
  }

  /** A list of lines each ended by `t` is the join of the lines and one
      empty trailing element. */
  lemma {:induction false} TerminatedAsJoin(xs: seq<string>, t: string)
    ensures Terminated(xs, t) == Join(xs + [""], t)
  {
    JoinAsTerminated(xs + [""], t);
    assert (xs + [""])[..|xs + [""]| - 1] == xs;
  }

  /** Total length of a list of strings. */
  function SumLengths(xs: seq<string>): nat
  {
    if xs == [] then 0 else SumLengths(xs[..|xs| - 1]) + |xs[|xs| - 1]|
  }

  lemma {:induction false} TerminatedLength(xs: seq<string>, t: string)
    ensures |Terminated(xs, t)| == SumLengths(xs) + |xs| * |t|
  {
    if xs != [] {
      TerminatedLength(xs[..|xs| - 1], t);
    }
  }

  /** Number of occurrences of character `c` in `s`. */
  function Count(s: string, c: char): nat
  {
    if s == [] then 0 else Count(s[..|s| - 1], c) + (if s[|s| - 1] == c then 1 else 0)
  }

  lemma {:induction false} CountConcat(a: string, b: string, c: char)
    ensures Count(a + b, c) == Count(a, c) + Count(b, c)
  {
    if b == [] {
      assert a + b == a;
    } else {
      assert (a + b)[..|a + b| - 1] == a + b[..|b| - 1];
      CountConcat(a, b[..|b| - 1], c);
    }
  }

  lemma {:induction false} CountAbsent(s: string, c: char)
    requires c !in s
    ensures Count(s, c) == 0
  {
    if s != [] {
      CountAbsent(s[..|s| - 1], c);
    }
  }

  /** Occurrences of the character `c` in the elements of `xs`, all ended by `t`. */
  lemma {:induction false} CountTerminated(xs: seq<string>, t: string, c: char)
    requires forall i :: 0 <= i < |xs| ==> c !in xs[i]
    ensures Count(Terminated(xs, t), c) == |xs| * Count(t, c)
  {
    if xs != [] {
      var init := xs[..|xs| - 1];
      CountTerminated(init, t, c);
      CountConcat(Terminated(init, t) + xs[|xs| - 1], t, c);
      CountConcat(Terminated(init, t), xs[|xs| - 1], c);
      CountAbsent(xs[|xs| - 1], c);
    }
  }

  // ---------------------------------------------------------------------
  // Substrings

  /** `p` occurs in `s` starting at index `i`. */
  ghost predicate Occurs(s: string, p: string, i: int)
  {
    0 <= i && i + |p| <= |s| && s[i..i + |p|] == p
  }

  /** `p in s` for strings. */
  ghost predicate Contains(s: string, p: string)
  {
    exists i :: Occurs(s, p, i)
  }

  /** When `p` starts with `q`, every occurrence of `p` is one of `q`. */
  lemma ContainsPrefix(s: string, p: string, q: string)
    requires |q| <= |p| && p[..|q|] == q
    requires Contains(s, p)
    ensures Contains(s, q)
  {
    var i :| Occurs(s, p, i);
    assert s[i..i + |q|] == s[i..i + |p|][..|q|];
    assert Occurs(s, q, i);
  }

  /** An occurrence in the tail `s[1..]` is one in `s`, one place later. */
  lemma OccursTail(s: string, p: string, i: int)
    requires |s| > 0 && 0 <= i
    ensures Occurs(s[1..], p, i) <==> Occurs(s, p, i + 1)
  {
    if 0 <= i && i + |p| <= |s| - 1 {
      assert s[1..][i..i + |p|] == s[i + 1..i + 1 + |p|];
    }
  }

  /** Python's `s.replace(p, "")`: a left-to-right scan that removes every
      non-overlapping occurrence of `p` and resumes after it. */
  function RemoveAll(s: string, p: string): (r: string)
    requires |p| > 0
    ensures |r| <= |s|
    decreases |s|
  {
    if |s| < |p| then s
    else if s[..|p|] == p then RemoveAll(s[|p|..], p)
    else [s[0]] + RemoveAll(s[1..], p)
  }

  /** The replacement leaves a string alone exactly when the pattern does
      not occur in it; otherwise it makes the string strictly shorter. */
  lemma {:induction false} RemoveAllUnchangedIff(s: string, p: string)
    requires |p| > 0
    ensures RemoveAll(s, p) == s <==> !Contains(s, p)
    ensures Contains(s, p) ==> |RemoveAll(s, p)| < |s|
    decreases |s|
  {
    if |s| < |p| {
      assert !Contains(s, p);
    } else if s[..|p|] == p {
      assert Occurs(s, p, 0);
    } else {
      RemoveAllUnchangedIff(s[1..], p);
      assert !Occurs(s, p, 0);
      if Contains(s, p) {
        var i :| Occurs(s, p, i);
        OccursTail(s, p, i - 1);
      } else {
        assert !Contains(s[1..], p) by {
          forall i | 0 <= i ensures !Occurs(s[1..], p, i) {
            OccursTail(s, p, i);
          }
        }
        assert [s[0]] + s[1..] == s;
      }
    }
  }

  /** `s.split(sep)[0]`: the text before the first occurrence of `sep`, or
      all of `s` when `sep` does not occur. */
  function BeforeFirst(s: string, sep: string): (r: string)
    requires |sep| > 0
    ensures |r| <= |s| && r == s[..|r|]
    ensures forall i :: 0 <= i < |r| ==> !Occurs(s, sep, i)
    ensures |r| < |s| ==> Occurs(s, sep, |r|)
    ensures !Contains(s, sep) ==> r == s
    decreases |s|
  {
    if |s| < |sep| then s
    else if s[..|sep|] == sep then assert Occurs(s, sep, 0); []
    else
      var r := [s[0]] + BeforeFirst(s[1..], sep);
      assert forall i :: 0 <= i ==> (Occurs(s[1..], sep, i) <==> Occurs(s, sep, i + 1)) by {
        forall i | 0 <= i ensures Occurs(s[1..], sep, i) <==> Occurs(s, sep, i + 1) {
          OccursTail(s, sep, i);
        }
      }
      assert !Occurs(s, sep, 0);
      assert forall i :: 1 <= i < |r| ==> !Occurs(s, sep, i) by {
        forall i | 1 <= i < |r| ensures !Occurs(s, sep, i) {
          OccursTail(s, sep, i - 1);
        }
      }
      assert !Contains(s, sep) ==> !Contains(s[1..], sep);
      assert [s[0]] + s[1..] == s;
      r
  }

  /** The index of the last `c` in `s`, as `s.rsplit(c, 1)` finds it. */
  function LastIndexOf(s: string, c: char): (r: Option<nat>)
    ensures r.None? <==> c !in s
    ensures r.Some? ==> r.value < |s| && s[r.value] == c && c !in s[r.value + 1..]
  {
    if s == [] then None
    else if s[|s| - 1] == c then Some(|s| - 1)
    else
      var r := LastIndexOf(s[..|s| - 1], c);
      assert s == s[..|s| - 1] + [s[|s| - 1]];
      if r.Some? then assert s[r.value + 1..] == s[..|s| - 1][r.value + 1..] + [s[|s| - 1]]; r
      else r
  }

  // ---------------------------------------------------------------------
  // Splitting on a character

  /** `s.split(c)` for a one-character separator: always at least one piece. */
  function SplitOn(s: string, c: char): (r: seq<string>)
    ensures |r| >= 1
  {
    if s == [] then [[]]
    else
      var rest := SplitOn(s[1..], c);
      if s[0] == c then [[]] + rest else [[s[0]] + rest[0]] + rest[1..]
  }

  lemma {:induction false} SplitOnPlain(a: string, c: char)
    requires c !in a
    ensures SplitOn(a, c) == [a]
  {
    if a != [] {
      SplitOnPlain(a[1..], c);
      assert [a[0]] + a[1..] == a;
    }
  }

  lemma {:induction false} SplitOnPiece(a: string, b: string, c: char)
    requires c !in a
    ensures SplitOn(a + [c] + b, c) == [a] + SplitOn(b, c)
  {
    if a == [] {
      assert a + [c] + b == [c] + b;
      assert ([c] + b)[1..] == b;
    } else {
      SplitOnPiece(a[1..], b, c);
      assert (a + [c] + b)[1..] == a[1..] + [c] + b;
      assert [a[0]] + a[1..] == a;
    }
  }

  /** Splitting a join on its one-character separator gives back the parts,
      provided no part contains the separator. */
  lemma {:induction false} SplitJoinRoundTrip(xs: seq<string>, c: char)
    requires |xs| > 0
    requires forall i :: 0 <= i < |xs| ==> c !in xs[i]
    ensures SplitOn(Join(xs, [c]), c) == xs
  {
    if |xs| == 1 {
      SplitOnPlain(xs[0], c);
    } else {
      SplitJoinRoundTrip(xs[1..], c);
      SplitOnPiece(xs[0], Join(xs[1..], [c]), c);
      assert [xs[0]] + xs[1..] == xs;
    }
  }
}

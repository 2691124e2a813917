/** Sequence operations the pages use: filtering, counting, summing and
    `map` with a conditional update. */
module Seqs {

  /** `a` can be obtained from `b` by deleting elements. */
  predicate IsSubsequence<T(==)>(a: seq<T>, b: seq<T>)
    decreases |b|
  {
    if a == [] then true
    else if b == [] then false
    else (a[0] == b[0] && IsSubsequence(a[1..], b[1..])) || IsSubsequence(a, b[1..])
  }

  /** The elements of `s` that `keep` accepts, in their original order
      (`Array.prototype.filter`). Duplicates are kept: an accepted value occurs
      as often as in `s`, so the length is the number of accepted elements. */
  function Filter<T(==,!new)>(s: seq<T>, keep: T -> bool): (r: seq<T>)
    ensures |r| == Count(s, keep)
    ensures forall i :: 0 <= i < |r| ==> keep(r[i])
    ensures forall x :: x in r <==> x in s && keep(x)
    ensures forall x :: multiset(r)[x] == if keep(x) then multiset(s)[x] else 0
    ensures IsSubsequence(r, s)
  {
    if s == [] then []
    else
      var rest := Filter(s[1..], keep);
      assert s == [s[0]] + s[1..];
      assert multiset(s) == multiset{s[0]} + multiset(s[1..]);
      if keep(s[0]) then
        var r := [s[0]] + rest;
        assert r[1..] == rest;
        assert multiset(r) == multiset{s[0]} + multiset(rest);
        r
      else
        rest
  }

  /** A filter that accepts everything returns the sequence unchanged. */
  lemma {:induction false} FilterAll<T(!new)>(s: seq<T>, keep: T -> bool)
    requires forall i :: 0 <= i < |s| ==> keep(s[i])
    ensures Filter(s, keep) == s
  {
    if s != [] {
      FilterAll(s[1..], keep);
      assert [s[0]] + s[1..] == s;
    }
  }

  /** How many elements of `s` satisfy `p`. */
  function Count<T>(s: seq<T>, p: T -> bool): (n: nat)
    ensures n <= |s|
  {
    if s == [] then 0 else (if p(s[0]) then 1 else 0) + Count(s[1..], p)
  }

  lemma {:induction false} CountAppend<T>(s: seq<T>, t: seq<T>, p: T -> bool)
    ensures Count(s + t, p) == Count(s, p) + Count(t, p)
  {
    if s != [] {
      assert (s + t)[1..] == s[1..] + t;
      CountAppend(s[1..], t, p);
    } else {
      assert s + t == t;
    }
  }

  /** The sum of `f` over the elements of `s` (`reduce((sum, x) => sum + f(x), 0)`). */
  function Sum<T>(s: seq<T>, f: T -> int): int
  {
    if s == [] then 0 else f(s[0]) + Sum(s[1..], f)
  }

  lemma {:induction false} SumAppend<T>(s: seq<T>, t: seq<T>, f: T -> int)
    ensures Sum(s + t, f) == Sum(s, f) + Sum(t, f)
  {
    if s != [] {
      assert (s + t)[1..] == s[1..] + t;
      SumAppend(s[1..], t, f);
    } else {
      assert s + t == t;
    }
  }

  /** `s.map(x => hit(x) ? change(x) : x)`: the elements `hit` selects are
      replaced by their changed version, the others stay, positions kept. */
  function UpdateWhere<T>(s: seq<T>, hit: T -> bool, change: T -> T): (r: seq<T>)
    ensures |r| == |s|
    ensures forall i :: 0 <= i < |s| && hit(s[i]) ==> r[i] == change(s[i])
    ensures forall i :: 0 <= i < |s| && !hit(s[i]) ==> r[i] == s[i]
  {
    seq(|s|, i requires 0 <= i < |s| => if hit(s[i]) then change(s[i]) else s[i])
  }

  /** A conditional update that selects nothing changes nothing. */
  lemma UpdateNowhere<T>(s: seq<T>, hit: T -> bool, change: T -> T)
    requires forall i :: 0 <= i < |s| ==> !hit(s[i])
    ensures UpdateWhere(s, hit, change) == s
  {
  }
}

/** The filters of the list pages. A drop-down's value "all" switches it off,
    any other value must match exactly. The search box keeps a row when one of
    its searched fields, lower-cased, includes the lower-cased search term;
    `toLowerCase` is the parameter `lower`. */
module Filters {
  const All := "all"

  predicate Selects(filter: string, value: string)
  {
    filter == All || value == filter
  }

  /** JavaScript's `s.includes(part)`: `part` starts at some position of `s`. */
  predicate Includes(s: string, part: string)
    decreases |s|
  {
    part <= s || (s != [] && Includes(s[1..], part))
  }

  /** `part` occupies `s` from position `i` on. */
  predicate OccursAt(s: string, part: string, i: int)
  {
    0 <= i <= |s| - |part| && s[i..i + |part|] == part
  }

  /** `Includes` is the existence of a position where `part` occurs. */
  lemma {:induction false} IncludesIffOccurs(s: string, part: string)
    ensures Includes(s, part) <==> exists i :: OccursAt(s, part, i)
    decreases |s|
  {
    if Includes(s, part) {
      if part <= s {
        assert OccursAt(s, part, 0);
      } else {
        IncludesIffOccurs(s[1..], part);
        var j :| OccursAt(s[1..], part, j);
        assert OccursAt(s, part, j + 1);
      }
    }
    if exists i :: OccursAt(s, part, i) {
      var i :| OccursAt(s, part, i);
      if i > 0 {
        assert OccursAt(s[1..], part, i - 1);
        IncludesIffOccurs(s[1..], part);
      } else {
        assert part <= s;
      }
    }
  }

  /** The search box keeps a row when some searched field includes the term,
      both lower-cased. */
  predicate Matches(lower: string -> string, term: string, fields: seq<string>)
  {
    exists i :: 0 <= i < |fields| && Includes(lower(fields[i]), lower(term))
  }

  /** An empty search box keeps every row that has a searched field. */
  lemma EmptyTermMatches(lower: string -> string, fields: seq<string>)
    requires lower("") == ""
    requires fields != []
    ensures Matches(lower, "", fields)
  {
    assert Includes(lower(fields[0]), lower(""));
  }
}

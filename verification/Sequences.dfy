/** The scans of the planner, as functions: `filter_map`, first-occurrence de-duplication
    and `find_map`, with the laws that let an index replace a linear scan. */
module Sequences {
  import opened Prelude

  /** `iter().filter_map(f).collect()`. */
  function FilterMap<T, U>(s: seq<T>, f: T -> Option<U>): seq<U> {
    if s == [] then []
    else
      var rest := FilterMap(s[..|s| - 1], f);
      match f(s[|s| - 1])
      case None => rest
      case Some(y) => rest + [y]
  }

  method Collect<T, U>(s: seq<T>, f: T -> Option<U>) returns (r: seq<U>)
    ensures r == FilterMap(s, f)
  {
    r := [];
    for n := 0 to |s|
      invariant r == FilterMap(s[..n], f)
    {
      assert s[..n + 1] == s[..n] + [s[n]];
      FilterMapSnoc(s[..n], s[n], f);
      var y := f(s[n]);
      r := r + if y.Some? then [y.value] else [];
    }
    assert s[..|s|] == s;
  }

  method AnySatisfies<T>(s: seq<T>, p: T -> bool) returns (hit: bool)
    ensures hit <==> exists y :: y in s && p(y)
  {
    for n := 0 to |s|
      invariant forall k :: 0 <= k < n ==> !p(s[k])
    {
      if p(s[n]) {
        assert s[n] in s;
        return true;
      }
    }
    hit := false;
  }

  /** Some element on which `f` answers has an answer satisfying `p`. */
  ghost predicate AnyAnswer<T, U>(s: seq<T>, f: T -> Option<U>, p: U -> bool) {
    exists x :: x in s && f(x).Some? && p(f(x).value)
  }

  lemma AnyAnswerFilterMap<T, U>(s: seq<T>, f: T -> Option<U>, p: U -> bool)
    ensures AnyAnswer(s, f, p) <==> exists y :: y in FilterMap(s, f) && p(y)
  {
    FilterMapMembers(s, f);
  }

  /** Each element once, at the place where it occurs first. */
  function FirstOccurrences<T(==)>(s: seq<T>): seq<T> {
    if s == [] then []
    else Include(FirstOccurrences(s[..|s| - 1]), s[|s| - 1])
  }

  function Include<T(==)>(s: seq<T>, x: T): seq<T> {
    if x in s then s else s + [x]
  }

  /** `iter().find_map(f)`: the result of the first element on which `f` answers. */
  function FirstSome<T, U>(s: seq<T>, f: T -> Option<U>): Option<U> {
    if s == [] then None
    else
      var r := FirstSome(s[..|s| - 1], f);
      if r.Some? then r else f(s[|s| - 1])
  }

  /** What `f` yields over `s`, each result once, in order of first occurrence. */
  function Distinct<T, U(==)>(s: seq<T>, f: T -> Option<U>): seq<U> {
    FirstOccurrences(FilterMap(s, f))
  }

  lemma DistinctNext<T, U>(s: seq<T>, n: nat, f: T -> Option<U>)
    requires n < |s|
    ensures Distinct(s[..n + 1], f) ==
            match f(s[n]) case None => Distinct(s[..n], f) case Some(y) => Include(Distinct(s[..n], f), y)
  {
    assert s[..n + 1] == s[..n] + [s[n]];
    FilterMapSnoc(s[..n], s[n], f);
    match f(s[n]) {
      case None => assert FilterMap(s[..n], f) + [] == FilterMap(s[..n], f);
      case Some(y) => FirstOccurrencesSnoc(FilterMap(s[..n], f), y);
    }
  }

  lemma {:induction false} FilterMapMembers<T, U>(s: seq<T>, f: T -> Option<U>)
    ensures forall y :: y in FilterMap(s, f) <==> exists x :: x in s && f(x) == Some(y)
  {
    if s != [] {
      var front, last := s[..|s| - 1], s[|s| - 1];
      assert s == front + [last];
      FilterMapMembers(front, f);
    }
  }

  lemma DistinctMembers<T, U>(s: seq<T>, f: T -> Option<U>)
    ensures forall y :: y in Distinct(s, f) <==> exists x :: x in s && f(x) == Some(y)
    ensures NoDuplicates(Distinct(s, f))
  {
    FilterMapMembers(s, f);
    FirstOccurrencesMembers(FilterMap(s, f));
    FirstOccurrencesDistinct(FilterMap(s, f));
  }

  lemma FilterMapSnoc<T, U>(s: seq<T>, x: T, f: T -> Option<U>)
    ensures FilterMap(s + [x], f) ==
            FilterMap(s, f) + (match f(x) case None => [] case Some(y) => [y])
  {
    assert (s + [x])[..|s|] == s;
  }

  lemma FirstSomeSnoc<T, U>(s: seq<T>, x: T, f: T -> Option<U>)
    ensures FirstSome(s + [x], f) == if FirstSome(s, f).Some? then FirstSome(s, f) else f(x)
  {
    assert (s + [x])[..|s|] == s;
  }

  lemma FirstOccurrencesSnoc<T>(s: seq<T>, x: T)
    ensures FirstOccurrences(s + [x]) == Include(FirstOccurrences(s), x)
  {
    assert (s + [x])[..|s|] == s;
  }

  /** `FirstSome` answers exactly with the least index on which `f` answers. */
  lemma {:induction false} FirstSomeIsLeast<T, U>(s: seq<T>, f: T -> Option<U>) returns (k: nat)
    ensures k <= |s|
    ensures forall i :: 0 <= i < k ==> f(s[i]).None?
    ensures FirstSome(s, f) == if k < |s| then f(s[k]) else None
    ensures k < |s| <==> FirstSome(s, f).Some?
  {
    if s == [] {
      k := 0;
    } else {
      k := FirstSomeIsLeast(s[..|s| - 1], f);
      if k == |s| - 1 && f(s[k]).None? {
        k := |s|;
      }
    }
  }

  /** The least index on which `f` answers determines the scan. */
  lemma FirstSomeAt<T, U>(s: seq<T>, k: nat, f: T -> Option<U>)
    requires k <= |s|
    requires forall i :: 0 <= i < k ==> f(s[i]).None?
    requires k < |s| ==> f(s[k]).Some?
    ensures FirstSome(s, f) == if k < |s| then f(s[k]) else None
  {
    var j := FirstSomeIsLeast(s, f);
  }

  /** A scan that answered before position `n` answers the same over the whole sequence. */
  lemma {:induction false} FirstSomePrefix<T, U>(s: seq<T>, n: nat, f: T -> Option<U>)
    requires n <= |s| && FirstSome(s[..n], f).Some?
    ensures FirstSome(s, f) == FirstSome(s[..n], f)
  {
    if n == |s| {
      assert s[..n] == s;
    } else {
      assert s[..|s| - 1][..n] == s[..n];
      FirstSomePrefix(s[..|s| - 1], n, f);
    }
  }

  /** One more element was scanned. */
  lemma FirstSomeExtend<T, U>(s: seq<T>, n: nat, f: T -> Option<U>)
    requires n < |s| && FirstSome(s[..n], f).None?
    ensures FirstSome(s[..n + 1], f) == f(s[n])
    ensures f(s[n]).Some? ==> FirstSome(s, f) == f(s[n])
  {
    assert s[..n + 1] == s[..n] + [s[n]];
    FirstSomeSnoc(s[..n], s[n], f);
    if f(s[n]).Some? {
      FirstSomePrefix(s, n + 1, f);
    }
  }

  /** Scanning the filtered sequence is scanning the original with the two steps composed. */
  lemma {:induction false} FirstSomeFusion<T, U, V>(s: seq<T>, g: T -> Option<U>, f: U -> Option<V>,
                                                   h: T -> Option<V>)
    requires forall x :: x in s ==> h(x) == match g(x) case None => None case Some(y) => f(y)
    ensures FirstSome(FilterMap(s, g), f) == FirstSome(s, h)
  {
    if s != [] {
      var n := |s| - 1;
      FirstSomeFusion(s[..n], g, f, h);
      if g(s[n]).Some? {
        FirstSomeSnoc(FilterMap(s[..n], g), g(s[n]).value, f);
      }
    }
  }

  lemma {:induction false} FirstOccurrencesMembers<T>(s: seq<T>)
    ensures forall x :: x in FirstOccurrences(s) <==> x in s
  {
    if s != [] {
      FirstOccurrencesMembers(s[..|s| - 1]);
      assert s == s[..|s| - 1] + [s[|s| - 1]];
    }
  }

  predicate NoDuplicates<T(==)>(s: seq<T>) {
    forall i, j :: 0 <= i < j < |s| ==> s[i] != s[j]
  }

  lemma {:induction false} FirstOccurrencesDistinct<T>(s: seq<T>)
    ensures NoDuplicates(FirstOccurrences(s))
  {
    if s != [] {
      FirstOccurrencesDistinct(s[..|s| - 1]);
    }
  }

  lemma {:induction false} FirstSomeNone<T, U>(s: seq<T>, f: T -> Option<U>)
    ensures FirstSome(s, f).None? <==> forall x :: x in s ==> f(x).None?
  {
    var k := FirstSomeIsLeast(s, f);
  }

  lemma FirstSomeMember<T, U>(s: seq<T>, f: T -> Option<U>) returns (x: T)
    requires FirstSome(s, f).Some?
    ensures x in s && f(x) == FirstSome(s, f)
  {
    var k := FirstSomeIsLeast(s, f);
    x := s[k];
  }

  /** De-duplication is invisible to a scan. */
  lemma {:induction false} FirstSomeDedup<T, U>(s: seq<T>, f: T -> Option<U>)
    ensures FirstSome(FirstOccurrences(s), f) == FirstSome(s, f)
  {
    if s != [] {
      var front, x := s[..|s| - 1], s[|s| - 1];
      FirstSomeDedup(front, f);
      if x in FirstOccurrences(front) {
        FirstSomeNone(FirstOccurrences(front), f);
      } else {
        FirstSomeSnoc(FirstOccurrences(front), x, f);
      }
    }
  }

  /** The head of the distinct list is what a scan finds. */
  lemma {:induction false} DistinctHead<T, U>(s: seq<T>, f: T -> Option<U>)
    ensures FirstSome(s, f) == if Distinct(s, f) == [] then None else Some(Distinct(s, f)[0])
  {
    if s != [] {
      DistinctHead(s[..|s| - 1], f);
      DistinctNext(s, |s| - 1, f);
      assert s[..|s| - 1 + 1] == s;
    }
  }
}

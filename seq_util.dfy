/** Small generic helpers over sequences: an optional value, Python's
    list.insert / slice assignment as one function, and "index of the first
    element satisfying a test", which every `for i, line in enumerate(...):
    ... break` loop of the fixers computes. */
module SeqUtil {

  datatype Option<T> = None | Some(value: T)

  /** `s[k:k] = xs` in Python: the elements of xs spliced in before position k. */
  function Insert<T>(s: seq<T>, k: nat, xs: seq<T>): (r: seq<T>)
    requires k <= |s|
    ensures |r| == |s| + |xs|
    ensures forall j :: 0 <= j < k ==> r[j] == s[j]
    ensures forall j :: 0 <= j < |xs| ==> r[k + j] == xs[j]
    ensures forall j :: k <= j < |s| ==> r[j + |xs|] == s[j]
  {
    s[..k] + xs + s[k..]
  }

  /** The index of the first element of s satisfying p, or None. */
  function FirstWhere<T>(s: seq<T>, p: T -> bool): (r: Option<nat>)
    ensures r.Some? ==> r.value < |s| && p(s[r.value])
    ensures r.Some? ==> forall j :: 0 <= j < r.value ==> !p(s[j])
    ensures r.None? <==> forall j :: 0 <= j < |s| ==> !p(s[j])
  {
    if s == [] then None
    else if p(s[0]) then Some(0)
    else match FirstWhere(s[1..], p)
      case None => None
      case Some(i) => Some(i + 1)
  }

  /** One past the index of the last element of s satisfying p, or 0 when
      none does: where a loop remembering `i + 1` at every hit ends up. */
  function AfterLast<T>(s: seq<T>, p: T -> bool): (k: nat)
    ensures k <= |s|
    ensures k > 0 ==> p(s[k - 1])
    ensures forall j :: k <= j < |s| ==> !p(s[j])
  {
    if s == [] then 0
    else if p(s[|s| - 1]) then |s|
    else AfterLast(s[..|s| - 1], p)
  }

  /** AfterLast over one more element: what one turn of the loop does. */
  lemma AfterLastStep<T>(s: seq<T>, p: T -> bool, i: nat)
    requires i < |s|
    ensures AfterLast(s[..i + 1], p) == if p(s[i]) then i + 1 else AfterLast(s[..i], p)
  {
    assert s[..i + 1][..i] == s[..i];
  }

  /** The value f gives the last element it gives one for, or dflt: what a
      loop overwriting a variable at every hit ends up with. */
  function LastSome<T, U>(s: seq<T>, f: T -> Option<U>, dflt: U): (r: U)
    ensures r == dflt || exists i :: 0 <= i < |s| && f(s[i]) == Some(r)
  {
    if s == [] then dflt
    else match f(s[|s| - 1])
      case Some(v) => v
      case None => LastSome(s[..|s| - 1], f, dflt)
  }

  lemma LastSomeStep<T, U>(s: seq<T>, f: T -> Option<U>, dflt: U, i: nat)
    requires i < |s|
    ensures LastSome(s[..i + 1], f, dflt) ==
            match f(s[i]) case Some(v) => v case None => LastSome(s[..i], f, dflt)
  {
    assert s[..i + 1][..i] == s[..i];
  }

  /** When f gives no value at all, the result is dflt. */
  lemma {:induction false} LastSomeNone<T, U>(s: seq<T>, f: T -> Option<U>, dflt: U)
    requires forall i :: 0 <= i < |s| ==> f(s[i]).None?
    ensures LastSome(s, f, dflt) == dflt
  {
    if s != [] {
      LastSomeNone(s[..|s| - 1], f, dflt);
    }
  }

  /** Otherwise it is the value for the last element f gives one for. */
  lemma {:induction false} LastSomeLast<T, U>(s: seq<T>, f: T -> Option<U>, dflt: U, i: nat)
    requires i < |s| && f(s[i]).Some?
    requires forall j :: i < j < |s| ==> f(s[j]).None?
    ensures LastSome(s, f, dflt) == f(s[i]).value
  {
    if i < |s| - 1 {
      LastSomeLast(s[..|s| - 1], f, dflt, i);
    }
  }

  /** A property of dflt and of every value f gives holds of the result. */
  lemma {:induction false} LastSomeHolds<T, U>(s: seq<T>, f: T -> Option<U>, dflt: U, q: U -> bool)
    requires q(dflt)
    requires forall i :: 0 <= i < |s| && f(s[i]).Some? ==> q(f(s[i]).value)
    ensures q(LastSome(s, f, dflt))
  {
    if s != [] && f(s[|s| - 1]).None? {
      LastSomeHolds(s[..|s| - 1], f, dflt, q);
    }
  }

  /** Every element of s satisfies p. */
  predicate Every<T>(s: seq<T>, p: T -> bool) {
    s == [] || (p(s[0]) && Every(s[1..], p))
  }

  lemma {:induction false} EveryAt<T>(s: seq<T>, p: T -> bool, j: nat)
    requires Every(s, p) && j < |s|
    ensures p(s[j])
  {
    if j > 0 {
      EveryAt(s[1..], p, j - 1);
    }
  }

  lemma EveryCons<T>(x: T, s: seq<T>, p: T -> bool)
    requires p(x) && Every(s, p)
    ensures Every([x] + s, p)
  {
    assert ([x] + s)[1..] == s;
  }

  /** No element before position i satisfies p. */
  predicate NoneBefore<T>(s: seq<T>, i: nat, p: T -> bool) {
    i <= |s| && forall j :: 0 <= j < i ==> !p(s[j])
  }

  lemma NoneBeforeStep<T>(s: seq<T>, i: nat, p: T -> bool)
    requires NoneBefore(s, i, p) && i < |s| && !p(s[i])
    ensures NoneBefore(s, i + 1, p)
  {
  }

  /** s[i] is the last element of s satisfying p. */
  predicate IsLastWhere<T>(s: seq<T>, i: nat, p: T -> bool) {
    i < |s| && p(s[i]) && forall j :: i < j < |s| ==> !p(s[j])
  }

  /** AfterLast points just past the last element satisfying p. */
  lemma AfterLastIsLast<T>(s: seq<T>, p: T -> bool, i: nat)
    requires IsLastWhere(s, i, p)
    ensures AfterLast(s, p) == i + 1
  {
    assert i < AfterLast(s, p);
  }

  /** The characterisation of FirstWhere from a witness index: what a loop
      that stops at the first hit establishes. */
  lemma FirstWhereAt<T>(s: seq<T>, p: T -> bool, i: nat)
    requires i < |s| && p(s[i])
    requires forall j :: 0 <= j < i ==> !p(s[j])
    ensures FirstWhere(s, p) == Some(i)
  {
  }

  /** Python's `any(p(x) for x in s)`. */
  function Any<T>(s: seq<T>, p: T -> bool): (b: bool)
    ensures b <==> exists i :: 0 <= i < |s| && p(s[i])
    ensures b <==> FirstWhere(s, p).Some?
  {
    s != [] && (p(s[0]) || Any(s[1..], p))
  }
  /** Splicing in elements none of which satisfy p keeps whether some
      element does. */
  lemma AnyInsert<T>(s: seq<T>, k: nat, xs: seq<T>, p: T -> bool)
    requires k <= |s|
    requires forall j :: 0 <= j < |xs| ==> !p(xs[j])
    ensures Any(Insert(s, k, xs), p) == Any(s, p)
  {
    var t := Insert(s, k, xs);
    if Any(s, p) {
      var i :| 0 <= i < |s| && p(s[i]);
      if i < k { assert t[i] == s[i]; } else { assert t[i + |xs|] == s[i]; }
    } else {
      forall j | 0 <= j < |t| ensures !p(t[j]) {
        if j < k { assert t[j] == s[j]; }
        else if j < k + |xs| { assert t[j] == xs[j - k]; }
        else { assert t[j] == s[j - |xs|]; }
      }
    }
  }



  /** Mapping by a function that keeps the test p fixes the first hit. */
  lemma FirstWhereMap<T>(s: seq<T>, f: T -> T, p: T -> bool)
    requires forall i :: 0 <= i < |s| ==> p(f(s[i])) == p(s[i])
    ensures FirstWhere(Map(s, f), p) == FirstWhere(s, p)
  {
    var t := Map(s, f);
    match FirstWhere(s, p)
    case None =>
      assert forall j :: 0 <= j < |t| ==> !p(t[j]);
    case Some(i) =>
      assert p(t[i]);
      FirstWhereAt(t, p, i);
  }

  /** Splicing elements none of which satisfies p keeps "no element up to u
      satisfies p" true of the element that was at u. */
  lemma NoneUpToInsert<T>(s: seq<T>, k: nat, xs: seq<T>, p: T -> bool, u: nat)
    requires k <= |s| && u < |s|
    requires forall j :: 0 <= j < |xs| ==> !p(xs[j])
    requires forall j :: 0 <= j <= u ==> !p(s[j])
    ensures var u' := if u < k then u else u + |xs|;
      Insert(s, k, xs)[u'] == s[u] && forall j :: 0 <= j <= u' ==> !p(Insert(s, k, xs)[j])
  {
    var t := Insert(s, k, xs);
    var u' := if u < k then u else u + |xs|;
    forall j | 0 <= j <= u' ensures !p(t[j]) {
      if j < k { assert t[j] == s[j]; }
      else if j < k + |xs| { assert t[j] == xs[j - k]; }
      else { assert t[j] == s[j - |xs|]; }
    }
  }

  /** Applying f to every element, Python's list comprehension `[f(x) for x in s]`. */
  function Map<T, U>(s: seq<T>, f: T -> U): (r: seq<U>)
    ensures |r| == |s| && forall i :: 0 <= i < |s| ==> r[i] == f(s[i])
  {
    seq(|s|, i requires 0 <= i < |s| => f(s[i]))
  }

  /** Mapping one more element extends the mapped prefix by its image. */
  lemma MapPrefixStep<T, U>(s: seq<T>, f: T -> U, i: nat)
    requires i < |s|
    ensures Map(s[..i + 1], f) == Map(s[..i], f) + [f(s[i])]
  {
  }

  /** The elements of s satisfying p, in order: `[x for x in s if p(x)]`. */
  function Filter<T>(s: seq<T>, p: T -> bool): (r: seq<T>)
    ensures |r| <= |s|
    ensures forall i :: 0 <= i < |r| ==> p(r[i])
  {
    if s == [] then []
    else (if p(s[0]) then [s[0]] else []) + Filter(s[1..], p)
  }

  /** Membership in a filtered sequence, in both directions. */
  lemma {:induction false} FilterIn<T>(s: seq<T>, p: T -> bool, x: T)
    ensures x in Filter(s, p) <==> x in s && p(x)
  {
    if s != [] {
      FilterIn(s[1..], p, x);
      assert s == [s[0]] + s[1..];
    }
  }

  lemma {:induction false} FilterAppend<T>(a: seq<T>, b: seq<T>, p: T -> bool)
    ensures Filter(a + b, p) == Filter(a, p) + Filter(b, p)
  {
    if a == [] {
      assert a + b == b;
    } else {
      assert (a + b)[1..] == a[1..] + b;
      FilterAppend(a[1..], b, p);
    }
  }

  /** Filtering by a test every element passes returns the sequence itself. */
  lemma {:induction false} FilterAll<T>(s: seq<T>, p: T -> bool)
    requires forall i :: 0 <= i < |s| ==> p(s[i])
    ensures Filter(s, p) == s
  {
    if s != [] {
      FilterAll(s[1..], p);
    }
  }

  /** Filtering a sequence in which only s[i] passes the test gives [s[i]]. */
  lemma {:induction false} FilterSingle<T>(s: seq<T>, p: T -> bool, i: nat)
    requires i < |s| && p(s[i])
    requires forall j :: 0 <= j < |s| && j != i ==> !p(s[j])
    ensures Filter(s, p) == [s[i]]
  {
    if i == 0 {
      FilterNone(s[1..], p);
    } else {
      FilterSingle(s[1..], p, i - 1);
    }
  }

  /** Filtering a sequence in which nothing passes the test gives []. */
  lemma FilterNone<T>(s: seq<T>, p: T -> bool)
    requires forall j :: 0 <= j < |s| ==> !p(s[j])
    ensures Filter(s, p) == []
  {
    if Filter(s, p) != [] {
      FilterIn(s, p, Filter(s, p)[0]);
    }
  }

  /** At least two elements pass the filter exactly when two positions of
      the sequence pass the test. */
  lemma {:induction false} FilterTwo<T>(s: seq<T>, p: T -> bool)
    ensures |Filter(s, p)| >= 2 <==> exists i, j :: 0 <= i < j < |s| && p(s[i]) && p(s[j])
  {
    if s != [] {
      var t := s[1..];
      FilterTwo(t, p);
      if |Filter(s, p)| >= 2 {
        if p(s[0]) {
          var x := Filter(t, p)[0];
          FilterIn(t, p, x);
          var j :| 0 <= j < |t| && t[j] == x;
          assert p(s[0]) && p(s[j + 1]);
        } else {
          var i, j :| 0 <= i < j < |t| && p(t[i]) && p(t[j]);
          assert p(s[i + 1]) && p(s[j + 1]);
        }
      }
      if exists i, j :: 0 <= i < j < |s| && p(s[i]) && p(s[j]) {
        var i, j :| 0 <= i < j < |s| && p(s[i]) && p(s[j]);
        FilterIn(t, p, s[j]);
        assert s[j] == t[j - 1];
        if i > 0 && !p(s[0]) {
          assert p(t[i - 1]) && p(t[j - 1]);
        }
      }
    }
  }

  /** Number of elements satisfying p. */
  function Count<T>(s: seq<T>, p: T -> bool): (n: nat)
    ensures n <= |s|
    ensures n == 0 <==> forall i :: 0 <= i < |s| ==> !p(s[i])
  {
    if s == [] then 0 else (if p(s[0]) then 1 else 0) + Count(s[1..], p)
  }

  lemma {:induction false} CountAppend<T>(a: seq<T>, b: seq<T>, p: T -> bool)
    ensures Count(a + b, p) == Count(a, p) + Count(b, p)
  {
    if a == [] {
      assert a + b == b;
    } else {
      assert (a + b)[1..] == a[1..] + b;
      CountAppend(a[1..], b, p);
    }
  }

  lemma CountInsert<T>(s: seq<T>, k: nat, xs: seq<T>, p: T -> bool)
    requires k <= |s|
    ensures Count(Insert(s, k, xs), p) == Count(s, p) + Count(xs, p)
  {
    assert s == s[..k] + s[k..];
    CountAppend(s[..k], s[k..], p);
    assert Insert(s, k, xs) == (s[..k] + xs) + s[k..];
    CountAppend(s[..k] + xs, s[k..], p);
    CountAppend(s[..k], xs, p);
  }
}

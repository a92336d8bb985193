/** A Mongoose collection as a class, and the pure query helpers the routes
    use on its documents (find, filter, newest-first, limit, sort). */
module Collections {
  import opened Wrappers

  /** A collection of documents. A document's ObjectId is its position in
      `docs`: none of the modelled collections ever deletes a document. */
  class Collection<T> {
    var docs: seq<T>

    constructor (init: seq<T>)
      ensures docs == init
    {
      docs := init;
    }

    /** `new Model(doc).save()` once validation has passed: appends `doc`
        and returns its id. */
    method Insert(doc: T) returns (id: nat)
      modifies this
      ensures docs == old(docs) + [doc]
      ensures id == |old(docs)|
    {
      id := |docs|;
      docs := docs + [doc];
    }

    /** `doc.save()` of a loaded document, or the write of `findByIdAndUpdate`. */
    method Replace(id: nat, doc: T)
      requires id < |docs|
      modifies this
      ensures docs == old(docs)[id := doc]
    {
      docs := docs[id := doc];
    }
  }

  /** `findOne(query)`: the position of the first document the query matches. */
  function FindFirst<T>(s: seq<T>, matches: T -> bool): (k: Option<nat>)
    ensures k.Some? ==> k.value < |s| && matches(s[k.value])
    ensures k.Some? ==> forall j :: 0 <= j < k.value ==> !matches(s[j])
    ensures k.None? <==> forall j :: 0 <= j < |s| ==> !matches(s[j])
  {
    if s == [] then None
    else if matches(s[0]) then Some(0)
    else match FindFirst(s[1..], matches)
      case None => None
      case Some(k) => Some(k + 1)
  }

  /** `find(query)` without a sort: the matching documents in stored order. */
  function Filter<T(!new)>(s: seq<T>, keep: T -> bool): (r: seq<T>)
    ensures |r| <= |s|
    ensures forall x :: x in r <==> x in s && keep(x)
    ensures forall x :: multiset(r)[x] == if keep(x) then multiset(s)[x] else 0
  {
    if s == [] then []
    else
      assert s == s[..|s| - 1] + [s[|s| - 1]];
      Filter(s[..|s| - 1], keep) + (if keep(s[|s| - 1]) then [s[|s| - 1]] else [])
  }

  /** With `Filter([]) == []`, this fixes the order of `find`: the kept
      documents in the order they were stored. */
  lemma FilterAppend<T(!new)>(s: seq<T>, x: T, keep: T -> bool)
    ensures Filter(s + [x], keep) == Filter(s, keep) + (if keep(x) then [x] else [])
  {
    assert (s + [x])[..|s|] == s;
  }

  /** `sort({ createdAt: -1 })`: documents are created in the order they are
      stored, so newest first is the stored order reversed. */
  function NewestFirst<T(!new)>(s: seq<T>): (r: seq<T>)
    ensures |r| == |s|
    ensures forall i :: 0 <= i < |s| ==> r[i] == s[|s| - 1 - i]
    ensures forall x :: x in r <==> x in s
  {
    if s == [] then [] else [s[|s| - 1]] + NewestFirst(s[..|s| - 1])
  }

  /** Newest first lists every document as many times as it is stored. */
  lemma {:induction false} NewestFirstPermutes<T(!new)>(s: seq<T>)
    ensures multiset(NewestFirst(s)) == multiset(s)
    decreases |s|
  {
    if s != [] {
      NewestFirstPermutes(s[..|s| - 1]);
      assert s == s[..|s| - 1] + [s[|s| - 1]];
    }
  }

  /** A newly stored document heads the newest-first list. */
  lemma NewestFirstAppend<T(!new)>(s: seq<T>, x: T)
    ensures NewestFirst(s + [x]) == [x] + NewestFirst(s)
  {
    assert (s + [x])[..|s|] == s;
  }

  /** `limit(n)`: at most the first `n` documents. */
  function Take<T>(s: seq<T>, n: nat): (r: seq<T>)
    ensures |r| == if n < |s| then n else |s|
    ensures r == s[..|r|]
  {
    if n < |s| then s[..n] else s
  }

  /** `sort({ createdAt: -1 }).limit(n)`: the `n` latest documents, or all of
      them when there are at most `n`, newest first. */
  lemma NewestTaken<T(!new)>(s: seq<T>, n: nat)
    ensures var t := Take(NewestFirst(s), n);
            && |t| == (if |s| < n then |s| else n)
            && (forall i :: 0 <= i < |t| ==> t[i] == s[|s| - 1 - i])
            && (forall x :: x in t ==> x in s)
            && (|s| <= n ==> forall x :: x in s ==> x in t)
  {
    var t := Take(NewestFirst(s), n);
    assert forall x :: x in t ==> x in NewestFirst(s);
  }

  /** `map(f)`: `f` of each document, in the same order. */
  function Mapped<T, U>(s: seq<T>, f: T -> U): (r: seq<U>)
    ensures |r| == |s| && forall i :: 0 <= i < |s| ==> r[i] == f(s[i])
  {
    if s == [] then [] else [f(s[0])] + Mapped(s[1..], f)
  }

  lemma {:induction false} MappedAppend<T, U>(a: seq<T>, b: seq<T>, f: T -> U)
    ensures Mapped(a + b, f) == Mapped(a, f) + Mapped(b, f)
    decreases |a|
  {
    if a == [] {
      assert a + b == b;
    } else {
      assert (a + b)[0] == a[0] && (a + b)[1..] == a[1..] + b;
      MappedAppend(a[1..], b, f);
    }
  }

  lemma MappedSplit<T, U>(s: seq<T>, k: nat, f: T -> U)
    requires k < |s|
    ensures Mapped(s, f) == Mapped(s[..k], f) + [f(s[k])] + Mapped(s[k + 1..], f)
  {
    var whole, parts := Mapped(s, f), Mapped(s[..k], f) + [f(s[k])] + Mapped(s[k + 1..], f);
    forall i | 0 <= i < |s|
      ensures parts[i] == whole[i]
    {
      if i < k {
        assert parts[i] == Mapped(s[..k], f)[i];
      } else if i > k {
        assert parts[i] == Mapped(s[k + 1..], f)[i - k - 1];
      }
    }
  }

  /** Taking the document at `k` out of `s`. */
  lemma Without<T>(s: seq<T>, k: nat)
    requires k < |s|
    ensures multiset(s) == multiset(s[..k] + s[k + 1..]) + multiset{s[k]}
  {
    assert s == s[..k] + [s[k]] + s[k + 1..];
  }

  /** Taking the document at `k` out of `s` takes its image out of the image. */
  lemma MappedWithout<T, U>(s: seq<T>, k: nat, f: T -> U)
    requires k < |s|
    ensures multiset(Mapped(s, f)) == multiset(Mapped(s[..k] + s[k + 1..], f)) + multiset{f(s[k])}
  {
    MappedSplit(s, k, f);
    MappedAppend(s[..k], s[k + 1..], f);
  }

  lemma CancelOne<T>(m: multiset<T>, n: multiset<T>, x: T)
    requires m + multiset{x} == n + multiset{x}
    ensures m == n
  {
    forall y ensures m[y] == n[y] {
      assert (m + multiset{x})[y] == (n + multiset{x})[y];
    }
  }

  /** Mapping a reordering gives a reordering of the image: the same values,
      as many times each. */
  lemma {:induction false} MappedPermutation<T, U>(a: seq<T>, b: seq<T>, f: T -> U)
    requires multiset(a) == multiset(b)
    ensures multiset(Mapped(a, f)) == multiset(Mapped(b, f))
    decreases |a|
  {
    if a == [] {
      assert |b| == |multiset(b)| == 0;
    } else {
      assert a[0] in multiset(b);
      var k :| 0 <= k < |b| && b[k] == a[0];
      var rest := b[..k] + b[k + 1..];
      Without(a, 0);
      Without(b, k);
      assert a[..0] + a[1..] == a[1..];
      CancelOne(multiset(a[1..]), multiset(rest), a[0]);
      MappedPermutation(a[1..], rest, f);
      MappedWithout(a, 0, f);
      MappedWithout(b, k, f);
    }
  }

  /** `leq` relates every two values one way or the other. */
  ghost predicate Total<T(!new)>(leq: (T, T) -> bool) {
    forall a, b :: leq(a, b) || leq(b, a)
  }

  predicate SortedBy<T>(s: seq<T>, leq: (T, T) -> bool) {
    forall i :: 0 < i < |s| ==> leq(s[i - 1], s[i])
  }

  function InsertBy<T(!new)>(x: T, s: seq<T>, leq: (T, T) -> bool): (r: seq<T>)
    requires Total(leq) && SortedBy(s, leq)
    ensures SortedBy(r, leq)
    ensures multiset(r) == multiset(s) + multiset{x}
    ensures r[0] == x || (s != [] && r[0] == s[0])
  {
    if s == [] || leq(x, s[0]) then [x] + s
    else
      assert s == [s[0]] + s[1..];
      [s[0]] + InsertBy(x, s[1..], leq)
  }

  /** `sort(...)` by a comparison: an ordered permutation of the documents. */
  function SortBy<T(!new)>(s: seq<T>, leq: (T, T) -> bool): (r: seq<T>)
    requires Total(leq)
    ensures SortedBy(r, leq)
    ensures multiset(r) == multiset(s)
  {
    if s == [] then []
    else
      assert s == [s[0]] + s[1..];
      InsertBy(s[0], SortBy(s[1..], leq), leq)
  }
}

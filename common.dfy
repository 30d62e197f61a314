/** Small value types shared by every layer of the model. */
module Common {

  /** A value that may be absent (JavaScript's `undefined` or `null`). */
  datatype Option<+T> = None | Some(value: T)

  /**
   * The errors the core raises or propagates, identified by their kind.
   * `TimeoutError` is the one whose `name` the wait queue inspects; the
   * others are the plain `Error`s of the pool and of `setTimeout`.
   */
  datatype Error =
    | TimeoutError
    | DelayNotPositive
    | PoolDraining
    | MaxWaitingClientsExceeded
    | NotPartOfPool
    | OtherError(name: string)
  {
    /** The `name` property a rejection handler sees. */
    function Name(): string {
      match this
      case TimeoutError => "TimeoutError"
      case OtherError(n) => n
      case _ => "Error"
    }
  }

  /** The outcome of an operation that may fail with an error. */
  datatype Outcome<+T> = Ok(value: T) | Fail(error: Error)
}

/** Sequence helpers shared by the containers and the pool. */
module Seqs {

  /** No element occurs twice. */
  ghost predicate NoDups<T>(s: seq<T>) {
    forall i, j :: 0 <= i < j < |s| ==> s[i] != s[j]
  }

  /** The position of the first occurrence of `x`. */
  function IndexOf<T(==)>(s: seq<T>, x: T): (k: nat)
    requires x in s
    ensures k < |s| && s[k] == x
    ensures forall j :: 0 <= j < k ==> s[j] != x
    ensures NoDups(s) ==> forall j :: 0 <= j < |s| && s[j] == x ==> j == k
  {
    if s[0] == x then 0 else 1 + IndexOf(s[1..], x)
  }

  /** `s` with every occurrence of `x` taken out, the rest in order. */
  function Without<T(==)>(s: seq<T>, x: T): (r: seq<T>)
    ensures x !in r
    ensures forall i :: 0 <= i < |r| ==> r[i] in s && r[i] != x
    ensures forall i :: 0 <= i < |s| && s[i] != x ==> s[i] in r
    ensures |r| <= |s|
    ensures x !in s ==> r == s
  {
    if s == [] then []
    else if s[0] == x then Without(s[1..], x)
    else [s[0]] + Without(s[1..], x)
  }

  /** Without duplicates, taking `x` out is cutting out its one position. */
  lemma {:induction false} WithoutAt<T>(s: seq<T>, x: T)
    requires NoDups(s) && x in s
    ensures Without(s, x) == s[..IndexOf(s, x)] + s[IndexOf(s, x) + 1..]
  {
    if s[0] != x {
      assert NoDups(s[1..]);
      WithoutAt(s[1..], x);
      assert s[1..][..IndexOf(s[1..], x)] == s[1..IndexOf(s, x)];
    } else {
      assert x !in s[1..];
    }
  }

  /** Removing an element keeps the others distinct. */
  lemma {:induction false} WithoutNoDups<T>(s: seq<T>, x: T)
    requires NoDups(s)
    ensures NoDups(Without(s, x))
    ensures x in s ==> |Without(s, x)| == |s| - 1
  {
    if s != [] {
      assert NoDups(s[1..]);
      WithoutNoDups(s[1..], x);
      if s[0] == x {
        assert x !in s[1..];
      }
    }
  }

  /** Inserting a new element anywhere keeps the elements distinct. */
  lemma InsertNoDups<T>(s: seq<T>, k: nat, x: T)
    requires NoDups(s) && x !in s && k <= |s|
    ensures NoDups(s[..k] + [x] + s[k..])
  {
    var r := s[..k] + [x] + s[k..];
    forall i, j | 0 <= i < j < |r| ensures r[i] != r[j] {
      assert r[i] == (if i < k then s[i] else if i == k then x else s[i - 1]);
      assert r[j] == (if j < k then s[j] else if j == k then x else s[j - 1]);
    }
  }

  /** Cutting out one position keeps the elements distinct. */
  lemma CutNoDups<T>(s: seq<T>, k: nat)
    requires NoDups(s) && k < |s|
    ensures NoDups(s[..k] + s[k + 1..])
  {
    var r := s[..k] + s[k + 1..];
    forall i, j | 0 <= i < j < |r| ensures r[i] != r[j] {
      assert r[i] == (if i < k then s[i] else s[i + 1]);
      assert r[j] == (if j < k then s[j] else s[j + 1]);
    }
  }

  /** Where the elements of `s` sit after `x` is inserted at position `p`. */
  lemma InsertAtIndex<T>(s: seq<T>, p: nat, x: T)
    requires p <= |s|
    ensures var r := s[..p] + [x] + s[p..];
            && |r| == |s| + 1 && r[p] == x
            && (forall j :: 0 <= j < p ==> r[j] == s[j])
            && (forall j :: p < j < |r| ==> r[j] == s[j - 1])
  {
  }

  /** Where the elements of `s` sit after the one at position `p` is cut out. */
  lemma CutAtIndex<T>(s: seq<T>, p: nat)
    requires p < |s|
    ensures var r := s[..p] + s[p + 1..];
            && |r| == |s| - 1
            && (forall j :: 0 <= j < p ==> r[j] == s[j])
            && (forall j :: p <= j < |r| ==> r[j] == s[j + 1])
  {
  }

  /** A new element at either end keeps the elements distinct. */
  lemma AppendNoDups<T>(s: seq<T>, x: T)
    requires NoDups(s) && x !in s
    ensures NoDups(s + [x]) && NoDups([x] + s)
  {
    InsertNoDups(s, |s|, x);
    InsertNoDups(s, 0, x);
    assert s[..|s|] + [x] + s[|s|..] == s + [x];
    assert s[..0] + [x] + s[0..] == [x] + s;
  }

  /** Without its first element a sequence stays distinct, and that element is not in the rest. */
  lemma TailNoDups<T>(s: seq<T>)
    requires NoDups(s) && |s| >= 1
    ensures NoDups(s[1..]) && s[0] !in s[1..]
  {
  }

  /** Taking `x` out of two sequences laid end to end takes it out of each. */
  lemma {:induction false} WithoutAppend<T>(a: seq<T>, b: seq<T>, x: T)
    ensures Without(a + b, x) == Without(a, x) + Without(b, x)
  {
    if a == [] {
      assert a + b == b;
    } else {
      assert (a + b)[1..] == a[1..] + b;
      WithoutAppend(a[1..], b, x);
    }
  }

  /** Cutting out position `k` of a sequence without duplicates takes out exactly its element. */
  lemma CutMembers<T>(s: seq<T>, k: nat)
    requires NoDups(s) && k < |s|
    ensures forall x :: x in s[..k] + s[k + 1..] <==> x in s && x != s[k]
  {
    CutAtIndex(s, k);
    forall x | x in s && x != s[k]
      ensures x in s[..k] + s[k + 1..]
    {
      var i :| 0 <= i < |s| && s[i] == x;
      if i < k {
        assert (s[..k] + s[k + 1..])[i] == x;
      } else {
        assert (s[..k] + s[k + 1..])[i - 1] == x;
      }
    }
  }
}

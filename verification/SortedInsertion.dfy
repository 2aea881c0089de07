/** Insertion into a list kept sorted by a key. */
module SortedInsertion {

  ghost predicate Sorted<T>(key: T -> nat, list: seq<T>) {
    forall i, j :: 0 <= i < j < |list| ==> key(list[i]) <= key(list[j])
  }

  /** Before the first element that does not come earlier. */
  function Insert<T>(key: T -> nat, list: seq<T>, x: T): (r: seq<T>)
    ensures |r| == |list| + 1
  {
    if list == [] || key(x) <= key(list[0]) then [x] + list
    else [list[0]] + Insert(key, list[1..], x)
  }

  lemma {:induction false} InsertBetween<T>(key: T -> nat, pre: seq<T>, x: T, post: seq<T>)
    requires forall i :: 0 <= i < |pre| ==> key(x) > key(pre[i])
    requires post != [] ==> key(x) <= key(post[0])
    ensures Insert(key, pre + post, x) == pre + ([x] + post)
  {
    if pre == [] {
      assert pre + post == post;
    } else {
      InsertBetween(key, pre[1..], x, post);
      assert (pre + post)[1..] == pre[1..] + post;
      assert pre == [pre[0]] + pre[1..];
    }
  }

  lemma {:induction false} InsertHolds<T>(key: T -> nat, list: seq<T>, x: T)
    ensures multiset(Insert(key, list, x)) == multiset(list) + multiset{x}
  {
    if list != [] && key(x) > key(list[0]) {
      InsertHolds(key, list[1..], x);
      assert list == [list[0]] + list[1..];
    }
  }

  lemma {:induction false} InsertSorts<T>(key: T -> nat, list: seq<T>, x: T)
    requires Sorted(key, list)
    ensures Sorted(key, Insert(key, list, x))
  {
    if list != [] && key(x) > key(list[0]) {
      var rest := Insert(key, list[1..], x);
      InsertSorts(key, list[1..], x);
      forall j | 0 <= j < |rest|
        ensures key(list[0]) <= key(rest[j])
      {
        InsertHolds(key, list[1..], x);
        assert rest[j] in multiset(rest);
        assert rest[j] == x || rest[j] in list[1..];
      }
    }
  }

  function Take<T>(n: nat, list: seq<T>): seq<T> {
    if |list| <= n then list else list[..n]
  }

  /** Of a list cut short, an insertion can only change what is left. */
  lemma {:induction false} InsertTaken<T>(key: T -> nat, n: nat, list: seq<T>, x: T)
    ensures Take(n, Insert(key, list, x)) == Take(n, Insert(key, Take(n, list), x))
  {
    if list != [] && n > 0 && key(x) > key(list[0]) {
      InsertTaken(key, n - 1, list[1..], x);
      assert Take(n, list) == [list[0]] + Take(n - 1, list[1..]);
      assert Take(n, list)[1..] == Take(n - 1, list[1..]);
      TakeMore(n, list[0], Insert(key, list[1..], x));
      TakeMore(n, list[0], Insert(key, Take(n - 1, list[1..]), x));
    }
  }

  lemma TakeMore<T>(n: nat, x: T, list: seq<T>)
    requires n > 0
    ensures Take(n, [x] + list) == [x] + Take(n - 1, list)
  {
  }

  ghost predicate KeyedApart<T>(key: T -> nat, a: seq<T>) {
    forall x, y :: x in a && y in a && key(x) == key(y) ==> x == y
  }

  /** When no two elements share a key, a sorted list is determined by what it holds. */
  lemma {:induction false} SortedUnique<T>(key: T -> nat, a: seq<T>, b: seq<T>)
    requires Sorted(key, a) && Sorted(key, b) && multiset(a) == multiset(b) && KeyedApart(key, a)
    ensures a == b
  {
    SameLength(a, b);
    if a != [] {
      SameHead(key, a, b);
      Tail(key, a);
      Tail(key, b);
      SortedUnique(key, a[1..], b[1..]);
    }
  }

  lemma SameLength<T>(a: seq<T>, b: seq<T>)
    requires multiset(a) == multiset(b)
    ensures |a| == |b|
  {
    assert |multiset(a)| == |a| && |multiset(b)| == |b|;
  }

  lemma Tail<T>(key: T -> nat, a: seq<T>)
    requires a != [] && Sorted(key, a)
    ensures a == [a[0]] + a[1..]
    ensures multiset(a[1..]) == multiset(a) - multiset{a[0]}
    ensures Sorted(key, a[1..])
    ensures KeyedApart(key, a) ==> KeyedApart(key, a[1..])
  {
    assert a == [a[0]] + a[1..];
  }

  lemma SameHead<T>(key: T -> nat, a: seq<T>, b: seq<T>)
    requires a != [] && b != []
    requires Sorted(key, a) && Sorted(key, b) && multiset(a) == multiset(b) && KeyedApart(key, a)
    ensures a[0] == b[0]
  {
    assert a[0] in multiset(b) && b[0] in multiset(a);
    var i :| 0 <= i < |b| && b[i] == a[0];
    var j :| 0 <= j < |a| && a[j] == b[0];
    assert key(b[0]) <= key(b[i]) && key(a[0]) <= key(a[j]);
  }
}

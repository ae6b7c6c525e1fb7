/** Elements of a set or a sequence: picking one, and counting them. */
module Choice {

  ghost function Pick<T>(s: set<T>): (x: T)
    requires s != {}
    ensures x in s
  {
    var x :| x in s;
    x
  }

  // The next key of a map that is enumerated in an arbitrary order.
  method TakeAny<T(==)>(s: set<T>) returns (x: T)
    requires s != {}
    ensures x in s
  {
    x :| x in s;
  }

  ghost function Elements<T>(s: seq<T>): set<T> {
    set x | x in s
  }

  lemma ElementsConcat<T>(a: seq<T>, b: seq<T>)
    ensures Elements(a + b) == Elements(a) + Elements(b)
  {
  }

  // Every set can be listed.
  lemma {:induction false} ListOf<T>(s: set<T>) returns (list: seq<T>)
    ensures Elements(list) == s && forall i, j | 0 <= i < j < |list| :: list[i] != list[j]
    decreases s
  {
    if s == {} {
      list := [];
    } else {
      var x := Pick(s);
      var rest := ListOf(s - {x});
      list := [x] + rest;
      ElementsConcat([x], rest);
      assert forall i | 0 <= i < |rest| :: rest[i] in Elements(rest);
    }
  }

  lemma CountLast<T>(s: seq<T>, last: T, x: T)
    ensures multiset(s + [last])[x] == multiset(s)[x] + if last == x then 1 else 0
  {
  }

  lemma SubsetCount<T>(small: set<T>, big: set<T>)
    requires small <= big
    ensures |small| <= |big|
  {
    assert big == small + (big - small);
  }
}

/** Item reports and the recency ordering of the home page's default listing: the lost
    and found feeds concatenated, then sorted newest first by a stable sort (the
    comparator `b.createdAt - a.createdAt`). */
module Posts {

  /** An item report as the listing uses it. `createdAt` is the creation time as a
      timestamp; the other fields are shown or searched on but not interpreted. */
  datatype Item = Item(
    id: string,
    category: string,
    possibleLocation: string,
    possibleDate: string,
    createdAt: int)

  /** Newest first: creation times never increase along the list. */
  ghost predicate Descending(xs: seq<Item>) {
    forall i, j :: 0 <= i < j < |xs| ==> xs[i].createdAt >= xs[j].createdAt
  }

  /** The items of `xs` created at time `t`, in their order in `xs`. */
  function CreatedAt(xs: seq<Item>, t: int): seq<Item> {
    if |xs| == 0 then []
    else (if xs[0].createdAt == t then [xs[0]] else []) + CreatedAt(xs[1..], t)
  }

  lemma CreatedAtCons(x: Item, rest: seq<Item>, t: int)
    ensures CreatedAt([x] + rest, t) == (if x.createdAt == t then [x] else []) + CreatedAt(rest, t)
  {
    assert ([x] + rest)[1..] == rest;
  }

  lemma {:induction false} CreatedAtAppend(a: seq<Item>, b: seq<Item>, t: int)
    ensures CreatedAt(a + b, t) == CreatedAt(a, t) + CreatedAt(b, t)
  {
    if |a| == 0 {
      assert a + b == b;
    } else {
      assert a + b == [a[0]] + (a[1..] + b);
      CreatedAtCons(a[0], a[1..] + b, t);
      CreatedAtAppend(a[1..], b, t);
    }
  }

  /** Putting an item no older than the head in front keeps a list newest first. */
  lemma DescendingCons(y: Item, rest: seq<Item>)
    requires Descending(rest)
    requires |rest| > 0 ==> y.createdAt >= rest[0].createdAt
    ensures Descending([y] + rest)
  {
    var r := [y] + rest;
    forall i, j | 0 <= i < j < |r| ensures r[i].createdAt >= r[j].createdAt {
      if i == 0 {
        assert r[j] == rest[j - 1];
        assert rest[0].createdAt >= rest[j - 1].createdAt;
      } else {
        assert r[i] == rest[i - 1] && r[j] == rest[j - 1];
      }
    }
  }

  /** Places `x` before the first item of `ys` that is not newer than it. */
  function Insert(x: Item, ys: seq<Item>): (r: seq<Item>)
    ensures |r| == |ys| + 1
    ensures r[0] == x || (|ys| > 0 && r[0] == ys[0])
    ensures multiset(r) == multiset(ys) + multiset{x}
  {
    if |ys| == 0 || ys[0].createdAt <= x.createdAt then [x] + ys
    else
      assert ys == [ys[0]] + ys[1..];
      [ys[0]] + Insert(x, ys[1..])
  }

  /** Inserting into a newest-first list keeps it newest first. */
  lemma {:induction false} InsertDescending(x: Item, ys: seq<Item>)
    requires Descending(ys)
    ensures Descending(Insert(x, ys))
  {
    if |ys| == 0 || ys[0].createdAt <= x.createdAt {
      DescendingCons(x, ys);
    } else {
      assert Descending(ys[1..]);
      InsertDescending(x, ys[1..]);
      DescendingCons(ys[0], Insert(x, ys[1..]));
    }
  }

  /** An item goes in front of every item of its own time already placed, so items of
      equal time keep their relative order. */
  lemma {:induction false} InsertCreatedAt(x: Item, ys: seq<Item>, t: int)
    requires Descending(ys)
    ensures CreatedAt(Insert(x, ys), t) == (if x.createdAt == t then [x] else []) + CreatedAt(ys, t)
  {
    if |ys| == 0 || ys[0].createdAt <= x.createdAt {
      CreatedAtCons(x, ys, t);
    } else {
      assert ys == [ys[0]] + ys[1..];
      CreatedAtCons(ys[0], ys[1..], t);
      CreatedAtCons(ys[0], Insert(x, ys[1..]), t);
      InsertCreatedAt(x, ys[1..], t);
    }
  }

  /** The stable newest-first order of `xs`. */
  function SortByRecency(xs: seq<Item>): (r: seq<Item>)
    ensures multiset(r) == multiset(xs)
    ensures Descending(r)
  {
    if |xs| == 0 then []
    else
      assert xs == [xs[0]] + xs[1..];
      InsertDescending(xs[0], SortByRecency(xs[1..]));
      Insert(xs[0], SortByRecency(xs[1..]))
  }

  /** The sort is stable: the items of each creation time appear in their input order. */
  lemma {:induction false} SortByRecencyStable(xs: seq<Item>, t: int)
    ensures CreatedAt(SortByRecency(xs), t) == CreatedAt(xs, t)
  {
    if |xs| > 0 {
      SortByRecencyStable(xs[1..], t);
      InsertCreatedAt(xs[0], SortByRecency(xs[1..]), t);
    }
  }

  /** The default listing: both feeds, newest first. */
  function MergeRecent(lost: seq<Item>, found: seq<Item>): (r: seq<Item>)
    ensures multiset(r) == multiset(lost) + multiset(found)
    ensures Descending(r)
  {
    SortByRecency(lost + found)
  }

  /** Among items created at the same time, the lost ones come first, each feed in its
      own order. */
  lemma MergeRecentTies(lost: seq<Item>, found: seq<Item>, t: int)
    ensures CreatedAt(MergeRecent(lost, found), t) == CreatedAt(lost, t) + CreatedAt(found, t)
  {
    SortByRecencyStable(lost + found, t);
    CreatedAtAppend(lost, found, t);
  }
}

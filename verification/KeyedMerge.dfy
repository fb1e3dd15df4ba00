/** Overlaying one list on another by key: the two loops the tool loader merges with,
    what they compute, and that they can be grouped in any way. */
module KeyedMerge {

  // ----- keys -----

  /** The last position of a key, or -1. */
  function LastIndex<T>(items: seq<T>, key: T -> string, k: string): (r: int)
    ensures -1 <= r < |items|
    ensures r >= 0 ==> key(items[r]) == k
    ensures forall i :: r < i < |items| ==> key(items[i]) != k
  {
    if items == [] then -1
    else if key(items[|items| - 1]) == k then |items| - 1
    else LastIndex(items[..|items| - 1], key, k)
  }

  predicate HasKey<T>(items: seq<T>, key: T -> string, k: string) {
    LastIndex(items, key, k) >= 0
  }

  /** Positions decide the last index. */
  lemma LastIndexIs<T>(items: seq<T>, key: T -> string, k: string, r: int)
    requires -1 <= r < |items| && (r >= 0 ==> key(items[r]) == k)
    requires forall i :: r < i < |items| ==> key(items[i]) != k
    ensures LastIndex(items, key, k) == r
  {
  }

  lemma LastIndexAppend<T>(items: seq<T>, item: T, key: T -> string, k: string)
    ensures LastIndex(items + [item], key, k) == if key(item) == k then |items| else LastIndex(items, key, k)
  {
    assert (items + [item])[..|items|] == items;
  }

  lemma LastIndexConcat<T>(a: seq<T>, b: seq<T>, key: T -> string, k: string)
    ensures LastIndex(a + b, key, k) == if HasKey(b, key, k) then |a| + LastIndex(b, key, k) else LastIndex(a, key, k)
  {
    LastIndexIs(a + b, key, k, if HasKey(b, key, k) then |a| + LastIndex(b, key, k) else LastIndex(a, key, k));
  }

  lemma LastIndexUpdate<T>(items: seq<T>, i: nat, item: T, key: T -> string, k: string)
    requires i < |items| && key(items[i]) == key(item)
    ensures LastIndex(items[i := item], key, k) == LastIndex(items, key, k)
  {
    LastIndexIs(items[i := item], key, k, LastIndex(items, key, k));
  }

  // ----- replacing by key -----

  /** Blank keys and new keys are appended; a known key's last item is replaced. */
  function Put<T>(items: seq<T>, item: T, key: T -> string): seq<T> {
    var i := LastIndex(items, key, key(item));
    if key(item) == "" || i < 0 then items + [item] else items[i := item]
  }

  function Merge<T>(base: seq<T>, delta: seq<T>, key: T -> string): seq<T> {
    if delta == [] then base else Put(Merge(base, delta[..|delta| - 1], key), delta[|delta| - 1], key)
  }

  ghost predicate IndexOf<T>(items: seq<T>, key: T -> string, index: map<string, nat>) {
    forall k :: k != "" ==> (if k in index then LastIndex(items, key, k) == index[k] else !HasKey(items, key, k))
  }

  method MergeByStringKey<T>(base: seq<T>, delta: seq<T>, key: T -> string) returns (merged: seq<T>)
    ensures merged == Merge(base, delta, key)
  {
    merged := base;
    var indexByKey: map<string, nat> := map[];
    for i := 0 to |base|
      invariant IndexOf(base[..i], key, indexByKey)
    {
      var itemKey := key(base[i]);
      assert base[..i + 1] == base[..i] + [base[i]];
      forall k ensures LastIndex(base[..i + 1], key, k) == if itemKey == k then i else LastIndex(base[..i], key, k) {
        LastIndexAppend(base[..i], base[i], key, k);
      }
      if itemKey == "" {
        continue;
      }
      indexByKey := indexByKey[itemKey := i];
    }
    assert base[..|base|] == base;
    for i := 0 to |delta|
      invariant merged == Merge(base, delta[..i], key)
      invariant IndexOf(merged, key, indexByKey)
    {
      var item, itemKey := delta[i], key(delta[i]);
      assert delta[..i + 1][..i] == delta[..i];
      ghost var before := merged;
      forall k
        ensures LastIndex(before + [item], key, k) == if itemKey == k then |before| else LastIndex(before, key, k)
      {
        LastIndexAppend(before, item, key, k);
      }
      if itemKey == "" {
        merged := merged + [item];
        continue;
      }
      if itemKey in indexByKey {
        forall k ensures LastIndex(before[indexByKey[itemKey] := item], key, k) == LastIndex(before, key, k) {
          LastIndexUpdate(before, indexByKey[itemKey], item, key, k);
        }
        merged := merged[indexByKey[itemKey] := item];
        continue;
      }
      indexByKey := indexByKey[itemKey := |merged|];
      merged := merged + [item];
    }
    assert delta[..|delta|] == delta;
  }

  // ----- grouping -----

  lemma PutKeys<T>(items: seq<T>, item: T, key: T -> string, k: string)
    ensures HasKey(Put(items, item, key), key, k) <==> HasKey(items, key, k) || key(item) == k
  {
    LastIndexAppend(items, item, key, k);
    var i := LastIndex(items, key, key(item));
    if key(item) != "" && i >= 0 {
      LastIndexUpdate(items, i, item, key, k);
    }
  }

  lemma PutCommutes<T>(items: seq<T>, z: T, x: T, key: T -> string)
    requires key(x) != "" && HasKey(items, key, key(x)) && key(z) != key(x)
    ensures Put(Put(items, z, key), x, key) == Put(Put(items, x, key), z, key)
  {
    var i, j := LastIndex(items, key, key(x)), LastIndex(items, key, key(z));
    LastIndexUpdate(items, i, x, key, key(z));
    if key(z) == "" || j < 0 {
      LastIndexAppend(items, z, key, key(x));
      assert Put(items, z, key) == items + [z];
      assert (items + [z])[i := x] == items[i := x] + [z];
    } else {
      LastIndexUpdate(items, j, z, key, key(x));
      assert items[j := z][i := x] == items[i := x][j := z];
    }
  }

  lemma PutAbsorbs<T>(items: seq<T>, y: T, x: T, key: T -> string)
    requires key(x) != "" && key(y) == key(x)
    ensures Put(Put(items, y, key), x, key) == Put(items, x, key)
  {
    var i := LastIndex(items, key, key(x));
    LastIndexAppend(items, y, key, key(x));
    if i >= 0 {
      LastIndexUpdate(items, i, y, key, key(x));
    }
  }

  lemma {:induction false} MergeConcat<T>(base: seq<T>, a: seq<T>, b: seq<T>, key: T -> string)
    ensures Merge(base, a + b, key) == Merge(Merge(base, a, key), b, key)
    decreases |b|
  {
    if b == [] {
      assert a + b == a;
    } else {
      var n := |b| - 1;
      assert (a + b)[..|a + b| - 1] == a + b[..n];
      MergeConcat(base, a, b[..n], key);
    }
  }

  lemma {:induction false} MergeKeepsKey<T>(base: seq<T>, delta: seq<T>, key: T -> string, k: string)
    requires HasKey(base, key, k)
    ensures HasKey(Merge(base, delta, key), key, k)
    decreases |delta|
  {
    if delta != [] {
      MergeKeepsKey(base, delta[..|delta| - 1], key, k);
      PutKeys(Merge(base, delta[..|delta| - 1], key), delta[|delta| - 1], key, k);
    }
  }

  /** A replacement moves past items with other keys. */
  lemma {:induction false} PutMovesBack<T>(base: seq<T>, rest: seq<T>, x: T, key: T -> string)
    requires key(x) != "" && HasKey(base, key, key(x)) && !HasKey(rest, key, key(x))
    ensures Put(Merge(base, rest, key), x, key) == Merge(Put(base, x, key), rest, key)
    decreases |rest|
  {
    if rest != [] {
      var n := |rest| - 1;
      PutMovesBack(base, rest[..n], x, key);
      MergeKeepsKey(base, rest[..n], key, key(x));
      PutCommutes(Merge(base, rest[..n], key), rest[n], x, key);
    }
  }

  lemma MergePut<T>(base: seq<T>, delta: seq<T>, x: T, key: T -> string)
    ensures Merge(base, Put(delta, x, key), key) == Put(Merge(base, delta, key), x, key)
  {
    var i := LastIndex(delta, key, key(x));
    if key(x) == "" || i < 0 {
      assert (delta + [x])[..|delta|] == delta;
    } else {
      var front, y, rest := delta[..i], delta[i], delta[i + 1..];
      assert delta == front + [y] + rest && delta[i := x] == front + [x] + rest;
      assert (front + [y])[..i] == front && (front + [x])[..i] == front;
      MergeConcat(base, front + [y], rest, key);
      MergeConcat(base, front + [x], rest, key);
      PutKeys(Merge(base, front, key), y, key, key(x));
      PutMovesBack(Merge(base, front + [y], key), rest, x, key);
      PutAbsorbs(Merge(base, front, key), y, x, key);
    }
  }

  /** Overlaying is associative on all lists, repeated and blank keys included. */
  lemma {:induction false} MergeAssociative<T>(a: seq<T>, b: seq<T>, c: seq<T>, key: T -> string)
    ensures Merge(Merge(a, b, key), c, key) == Merge(a, Merge(b, c, key), key)
    decreases |c|
  {
    if c != [] {
      var n := |c| - 1;
      MergeAssociative(a, b, c[..n], key);
      MergePut(a, Merge(b, c[..n], key), c[n], key);
    }
  }

  // ----- what the merge computes -----

  /** The value a base position ends with: the delta's last for its key, if the position is the key's last. */
  function Overlaid<T>(base: seq<T>, delta: seq<T>, key: T -> string): seq<T> {
    seq(|base|, i requires 0 <= i < |base| => OverlaidAt(base, delta, key, i))
  }

  function OverlaidAt<T>(base: seq<T>, delta: seq<T>, key: T -> string, i: nat): T
    requires i < |base|
  {
    var k := key(base[i]);
    if k != "" && i == LastIndex(base, key, k) && HasKey(delta, key, k) then delta[LastIndex(delta, key, k)]
    else base[i]
  }

  /** Position `j` of the delta brings something new: a blank key, or the first
      occurrence of a key the base does not have. */
  predicate Fresh<T>(base: seq<T>, delta: seq<T>, key: T -> string, j: nat)
    requires j < |delta|
  {
    key(delta[j]) == "" || (!HasKey(base, key, key(delta[j])) && !HasKey(delta[..j], key, key(delta[j])))
  }

  /** The first `n` items of the delta that are new, each with the delta's last value for its key. */
  function News<T>(base: seq<T>, delta: seq<T>, key: T -> string, n: nat): seq<T>
    requires n <= |delta|
  {
    if n == 0 then []
    else if Fresh(base, delta, key, n - 1) then News(base, delta, key, n - 1) + [Final(delta, key, n - 1)]
    else News(base, delta, key, n - 1)
  }

  function Final<T>(delta: seq<T>, key: T -> string, j: nat): T
    requires j < |delta|
  {
    if key(delta[j]) == "" then delta[j] else delta[LastIndex(delta, key, key(delta[j]))]
  }

  /** Where the new item with key `k` stands among the news. */
  lemma {:induction false} NewsKey<T>(base: seq<T>, delta: seq<T>, key: T -> string, n: nat, k: string)
    requires n <= |delta| && k != ""
    ensures HasKey(News(base, delta, key, n), key, k) <==> !HasKey(base, key, k) && HasKey(delta[..n], key, k)
  {
    if n > 0 {
      NewsKey(base, delta, key, n - 1, k);
      assert delta[..n] == delta[..n - 1] + [delta[n - 1]];
      LastIndexAppend(delta[..n - 1], delta[n - 1], key, k);
      if Fresh(base, delta, key, n - 1) {
        LastIndexAppend(News(base, delta, key, n - 1), Final(delta, key, n - 1), key, k);
      }
    }
  }

  /** The last item with the key of `x` becomes `x`, if there is one. */
  function Replaced<T>(items: seq<T>, x: T, key: T -> string): seq<T> {
    if key(x) != "" && HasKey(items, key, key(x)) then items[LastIndex(items, key, key(x)) := x] else items
  }

  lemma ReplacedLast<T>(front: seq<T>, last: T, x: T, key: T -> string)
    requires key(last) == key(x) && key(x) != ""
    ensures Replaced(front + [last], x, key) == front + [x]
  {
    LastIndexAppend(front, last, key, key(x));
  }

  lemma ReplacedFront<T>(front: seq<T>, last: T, x: T, key: T -> string)
    requires key(x) == "" || key(last) != key(x)
    ensures Replaced(front + [last], x, key) == Replaced(front, x, key) + [last]
  {
    LastIndexAppend(front, last, key, key(x));
  }

  /** One more delta item does not change what is new before it, and gives the last value to
      its own key. */
  lemma FreshExtend<T>(base: seq<T>, delta: seq<T>, x: T, key: T -> string, j: nat)
    requires j < |delta|
    ensures Fresh(base, delta + [x], key, j) == Fresh(base, delta, key, j)
    ensures Final(delta + [x], key, j)
      == if key(x) != "" && key(delta[j]) == key(x) then x else Final(delta, key, j)
  {
    assert (delta + [x])[..j] == delta[..j] && (delta + [x])[j] == delta[j];
    LastIndexAppend(delta, x, key, key(delta[j]));
  }

  /** One more delta item changes the value of an earlier new item exactly if it has its key. */
  lemma {:induction false} NewsExtend<T>(base: seq<T>, delta: seq<T>, x: T, key: T -> string, n: nat)
    requires n <= |delta|
    ensures News(base, delta + [x], key, n) == Replaced(News(base, delta, key, n), x, key)
  {
    if n > 0 {
      var j := n - 1;
      NewsExtend(base, delta, x, key, j);
      FreshExtend(base, delta, x, key, j);
      if Fresh(base, delta, key, j) {
        NewsFresh(base, delta, x, key, j);
      }
    }
  }

  lemma NewsFresh<T>(base: seq<T>, delta: seq<T>, x: T, key: T -> string, j: nat)
    requires j < |delta| && Fresh(base, delta, key, j)
    ensures Replaced(News(base, delta, key, j) + [Final(delta, key, j)], x, key)
      == Replaced(News(base, delta, key, j), x, key) + [Final(delta + [x], key, j)]
  {
    var before, last, k := News(base, delta, key, j), Final(delta, key, j), key(delta[j]);
    FreshExtend(base, delta, x, key, j);
    if key(x) != "" && k == key(x) {
      NewsKey(base, delta, key, j, k);
      ReplacedLast(before, last, x, key);
    } else {
      ReplacedFront(before, last, x, key);
    }
  }

  lemma OverlaidKeys<T>(base: seq<T>, delta: seq<T>, key: T -> string, k: string)
    ensures LastIndex(Overlaid(base, delta, key), key, k) == LastIndex(base, key, k)
  {
    LastIndexIs(Overlaid(base, delta, key), key, k, LastIndex(base, key, k));
  }

  lemma OverlaidExtend<T>(base: seq<T>, delta: seq<T>, x: T, key: T -> string)
    ensures Overlaid(base, delta + [x], key)
      == if key(x) != "" && HasKey(base, key, key(x)) then Overlaid(base, delta, key)[LastIndex(base, key, key(x)) := x]
         else Overlaid(base, delta, key)
  {
    forall i | 0 <= i < |base|
      ensures OverlaidAt(base, delta + [x], key, i)
        == if key(x) != "" && i == LastIndex(base, key, key(x)) then x else OverlaidAt(base, delta, key, i)
    {
      LastIndexAppend(delta, x, key, key(base[i]));
    }
  }

  /** Putting into two lists end to end. */
  lemma PutSplit<T>(a: seq<T>, b: seq<T>, x: T, key: T -> string)
    ensures Put(a + b, x, key)
      == if key(x) == "" || (!HasKey(a, key, key(x)) && !HasKey(b, key, key(x))) then a + (b + [x])
         else if HasKey(b, key, key(x)) then a + b[LastIndex(b, key, key(x)) := x]
         else a[LastIndex(a, key, key(x)) := x] + b
  {
    LastIndexConcat(a, b, key, key(x));
  }

  lemma NewsAppend<T>(base: seq<T>, d: seq<T>, x: T, key: T -> string)
    ensures var n, news, k := |d|, News(base, d, key, |d|), key(x);
            News(base, d + [x], key, n + 1)
            == if k == "" || (!HasKey(base, key, k) && !HasKey(news, key, k)) then news + [x]
               else if HasKey(news, key, k) then news[LastIndex(news, key, k) := x]
               else news
  {
    var n, all := |d|, d + [x];
    assert all[..n] == d && all[n] == x;
    NewsExtend(base, d, x, key, n);
    if key(x) != "" {
      NewsKey(base, d, key, n, key(x));
      assert d[..n] == d;
      LastIndexAppend(d, x, key, key(x));
    }
  }

  /** The merge keeps the base's positions, takes the delta's value for each shared key,
      and appends the new keys in the order they first occur. */
  lemma {:induction false} MergeIs<T>(base: seq<T>, delta: seq<T>, key: T -> string)
    ensures Merge(base, delta, key) == Overlaid(base, delta, key) + News(base, delta, key, |delta|)
    decreases |delta|
  {
    if delta == [] {
      assert Overlaid(base, delta, key) == base;
    } else {
      var d, x := delta[..|delta| - 1], delta[|delta| - 1];
      assert delta == d + [x];
      MergeIs(base, d, key);
      PutSplit(Overlaid(base, d, key), News(base, d, key, |d|), x, key);
      OverlaidExtend(base, d, x, key);
      OverlaidKeys(base, d, key, key(x));
      NewsAppend(base, d, x, key);
      if key(x) != "" {
        NewsKey(base, d, key, |d|, key(x));
      }
    }
  }

  // ----- keeping the first -----

  /** Blank keys are appended, known keys dropped, new keys appended. */
  function Add<T>(items: seq<T>, item: T, key: T -> string): seq<T> {
    if key(item) != "" && HasKey(items, key, key(item)) then items else items + [item]
  }

  function AppendUnique<T>(base: seq<T>, delta: seq<T>, key: T -> string): seq<T> {
    if delta == [] then base else Add(AppendUnique(base, delta[..|delta| - 1], key), delta[|delta| - 1], key)
  }

  ghost predicate KeysOf<T>(items: seq<T>, key: T -> string, seen: set<string>) {
    forall k :: k != "" ==> (k in seen <==> HasKey(items, key, k))
  }

  method AppendUniqueByKey<T>(base: seq<T>, delta: seq<T>, key: T -> string) returns (merged: seq<T>)
    ensures merged == AppendUnique(base, delta, key)
  {
    merged := base;
    var seen: set<string> := {};
    for i := 0 to |base|
      invariant KeysOf(base[..i], key, seen)
    {
      assert base[..i + 1] == base[..i] + [base[i]];
      forall k ensures HasKey(base[..i + 1], key, k) <==> HasKey(base[..i], key, k) || key(base[i]) == k {
        LastIndexAppend(base[..i], base[i], key, k);
      }
      seen := seen + {key(base[i])};
    }
    assert base[..|base|] == base;
    for i := 0 to |delta|
      invariant merged == AppendUnique(base, delta[..i], key)
      invariant KeysOf(merged, key, seen)
    {
      var item, itemKey := delta[i], key(delta[i]);
      assert delta[..i + 1][..i] == delta[..i];
      ghost var before := merged;
      forall k ensures HasKey(before + [item], key, k) <==> HasKey(before, key, k) || itemKey == k {
        LastIndexAppend(before, item, key, k);
      }
      if itemKey == "" {
        merged := merged + [item];
        continue;
      }
      if itemKey in seen {
        continue;
      }
      seen := seen + {itemKey};
      merged := merged + [item];
    }
    assert delta[..|delta|] == delta;
  }

  lemma AddKeys<T>(items: seq<T>, item: T, key: T -> string, k: string)
    ensures HasKey(Add(items, item, key), key, k) <==> HasKey(items, key, k) || key(item) == k
  {
    LastIndexAppend(items, item, key, k);
  }

  lemma {:induction false} AppendUniqueKeys<T>(base: seq<T>, delta: seq<T>, key: T -> string, k: string)
    ensures HasKey(AppendUnique(base, delta, key), key, k) <==> HasKey(base, key, k) || HasKey(delta, key, k)
    decreases |delta|
  {
    if delta != [] {
      var n := |delta| - 1;
      assert delta == delta[..n] + [delta[n]];
      AppendUniqueKeys(base, delta[..n], key, k);
      AddKeys(AppendUnique(base, delta[..n], key), delta[n], key, k);
      LastIndexAppend(delta[..n], delta[n], key, k);
    }
  }

  lemma AppendUniqueAdd<T>(base: seq<T>, delta: seq<T>, x: T, key: T -> string)
    ensures AppendUnique(base, Add(delta, x, key), key) == Add(AppendUnique(base, delta, key), x, key)
  {
    AppendUniqueKeys(base, delta, key, key(x));
    assert (delta + [x])[..|delta|] == delta;
  }

  /** Keeping the first is associative on all lists. */
  lemma {:induction false} AppendUniqueAssociative<T>(a: seq<T>, b: seq<T>, c: seq<T>, key: T -> string)
    ensures AppendUnique(AppendUnique(a, b, key), c, key) == AppendUnique(a, AppendUnique(b, c, key), key)
    decreases |c|
  {
    if c != [] {
      var n := |c| - 1;
      AppendUniqueAssociative(a, b, c[..n], key);
      AppendUniqueAdd(a, AppendUnique(b, c[..n], key), c[n], key);
    }
  }

  /** The delta's new items, in order, each key once. */
  function Firsts<T>(base: seq<T>, delta: seq<T>, key: T -> string, n: nat): seq<T>
    requires n <= |delta|
  {
    if n == 0 then []
    else Firsts(base, delta, key, n - 1) + if Fresh(base, delta, key, n - 1) then [delta[n - 1]] else []
  }

  lemma {:induction false} FirstsPrefix<T>(base: seq<T>, delta: seq<T>, x: T, key: T -> string, n: nat)
    requires n <= |delta|
    ensures Firsts(base, delta + [x], key, n) == Firsts(base, delta, key, n)
  {
    if n > 0 {
      FirstsPrefix(base, delta, x, key, n - 1);
      assert (delta + [x])[..n - 1] == delta[..n - 1];
    }
  }

  /** It keeps the base as it is and appends the first item of each new key. */
  lemma {:induction false} AppendUniqueIs<T>(base: seq<T>, delta: seq<T>, key: T -> string)
    ensures AppendUnique(base, delta, key) == base + Firsts(base, delta, key, |delta|)
    decreases |delta|
  {
    if delta == [] {
      assert base + [] == base;
    } else {
      var n := |delta| - 1;
      var d, x := delta[..n], delta[n];
      assert delta == d + [x] && delta[..n] == d;
      AppendUniqueIs(base, d, key);
      AppendUniqueKeys(base, d, key, key(x));
      FirstsPrefix(base, d, x, key, n);
    }
  }
}

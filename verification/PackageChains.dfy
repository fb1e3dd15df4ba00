/** What a chain of packages comes to, told by the packages alone: which one sets each text,
    each limit and each switch, and which items of their lists are left. */
module PackageChains {
  import opened Text
  import opened KeyedMerge
  import opened ToolPackages

  // ----- texts, limits and switches -----

  datatype Setting = Name | Actor | DefaultWriteDomain | DefaultTimeout

  function TextOf(t: Tools, s: Setting): string {
    match s
    case Name => t.name
    case Actor => t.memory.actor
    case DefaultWriteDomain => t.memory.defaultWriteDomain
    case DefaultTimeout => t.localExec.defaultTimeout
  }

  /** Package `k` is the last one that sets it; the root stands in if none does. */
  predicate LastToSet(packages: seq<Tools>, k: nat, s: Setting) {
    && k < |packages| && (k == 0 || !Blank(TextOf(packages[k], s)))
    && forall j :: k < j < |packages| ==> Blank(TextOf(packages[j], s))
  }

  /** The values overlaid one after another. */
  function Folded<T>(values: seq<T>, overlay: (T, T) -> T): T
    requires values != []
  {
    var n := |values| - 1;
    if n == 0 then values[0] else overlay(Folded(values[..n], overlay), values[n])
  }

  function Reads<T>(packages: seq<Tools>, read: Tools -> T): (values: seq<T>)
    ensures |values| == |packages| && forall k :: 0 <= k < |packages| ==> values[k] == read(packages[k])
  {
    seq(|packages|, k requires 0 <= k < |packages| => read(packages[k]))
  }

  lemma {:induction false} FoldedReads<U, T>(
    values: seq<U>, combine: (U, U) -> U, read: U -> T, overlay: (T, T) -> T, parts: seq<T>)
    requires values != [] && |parts| == |values| && forall k :: 0 <= k < |values| ==> parts[k] == read(values[k])
    requires forall a, b :: read(combine(a, b)) == overlay(read(a), read(b))
    ensures read(Folded(values, combine)) == Folded(parts, overlay)
    decreases |values|
  {
    var n := |values| - 1;
    if n > 0 {
      FoldedReads(values[..n], combine, read, overlay, parts[..n]);
    }
  }

  lemma {:induction false} FlattenedIsFolded(packages: seq<Tools>)
    requires packages != []
    ensures Flattened(packages) == Folded(packages, MergeInheritedTools)
    decreases |packages|
  {
    var n := |packages| - 1;
    if n > 0 {
      FlattenedIsFolded(packages[..n]);
    }
  }

  /** What is read off an overlay is made of what is read off its two packages. */
  ghost predicate ReadsOver<T>(read: Tools -> T, overlay: (T, T) -> T) {
    forall a, b :: read(MergeInheritedTools(a, b)) == overlay(read(a), read(b))
  }

  /** What is read off a chain is what is read off its packages, overlaid. */
  lemma FlattenedReads<T>(packages: seq<Tools>, read: Tools -> T, overlay: (T, T) -> T)
    requires packages != [] && ReadsOver(read, overlay)
    ensures read(Flattened(packages)) == Folded(Reads(packages, read), overlay)
  {
    FlattenedIsFolded(packages);
    FoldedReads(packages, MergeInheritedTools, read, overlay, Reads(packages, read));
  }

  lemma {:induction false} LastWins<T(!new)>(values: seq<T>, k: nat, overlay: (T, T) -> T, unset: T -> bool)
    requires forall x, y :: overlay(x, y) == if unset(y) then x else y
    requires k < |values| && (k == 0 || !unset(values[k])) && forall j :: k < j < |values| ==> unset(values[j])
    ensures Folded(values, overlay) == values[k]
    decreases |values|
  {
    var n := |values| - 1;
    if k < n {
      LastWins(values[..n], k, overlay, unset);
    }
  }

  function TextReader(s: Setting): Tools -> string {
    (t: Tools) => TextOf(t, s)
  }

  function Later(base: string, delta: string): string {
    if Blank(delta) then base else delta
  }

  lemma TextsOver(s: Setting)
    ensures ReadsOver(TextReader(s), Later)
  {
  }

  lemma TextsFolded(packages: seq<Tools>, s: Setting)
    requires packages != []
    ensures TextReader(s)(Flattened(packages)) == Folded(Reads(packages, TextReader(s)), Later)
  {
    TextsOver(s);
    FlattenedReads(packages, TextReader(s), Later);
  }

  /** The most derived package that sets a text sets it for the chain. */
  lemma LastTextWins(packages: seq<Tools>, k: nat, s: Setting)
    requires LastToSet(packages, k, s)
    ensures TextOf(Flattened(packages), s) == TextOf(packages[k], s)
  {
    TextsFolded(packages, s);
    LastWins(Reads(packages, TextReader(s)), k, Later, Blank);
  }

  predicate LastToLimit(packages: seq<Tools>, k: nat) {
    && k < |packages| && (k == 0 || packages[k].localExec.defaultMaxOutputBytes > 0)
    && forall j :: k < j < |packages| ==> packages[j].localExec.defaultMaxOutputBytes <= 0
  }

  function Limit(t: Tools): int {
    t.localExec.defaultMaxOutputBytes
  }

  function LaterLimit(base: int, delta: int): int {
    if delta <= 0 then base else delta
  }

  lemma LimitsOver()
    ensures ReadsOver(Limit, LaterLimit)
  {
  }

  lemma LimitsFolded(packages: seq<Tools>)
    requires packages != []
    ensures Limit(Flattened(packages)) == Folded(Reads(packages, Limit), LaterLimit)
  {
    LimitsOver();
    FlattenedReads(packages, Limit, LaterLimit);
  }

  /** And the most derived one that sets an output limit sets that. */
  lemma LastLimitWins(packages: seq<Tools>, k: nat)
    requires LastToLimit(packages, k)
    ensures Flattened(packages).localExec.defaultMaxOutputBytes == packages[k].localExec.defaultMaxOutputBytes
  {
    LimitsFolded(packages);
    LastWins(Reads(packages, Limit), k, LaterLimit, (n: int) => n <= 0);
  }

  datatype Switch = LocalCommands | Servers

  predicate On(t: Tools, s: Switch) {
    if s.LocalCommands? then t.localExec.enabled else t.mcp.enabled
  }

  function Switched(s: Switch): Tools -> bool {
    (t: Tools) => On(t, s)
  }

  function Either(x: bool, y: bool): bool {
    x || y
  }

  lemma SwitchesOver(s: Switch)
    ensures ReadsOver(Switched(s), Either)
  {
  }

  lemma {:induction false} AnyTrue(values: seq<bool>)
    requires values != []
    ensures Folded(values, Either) <==> true in values
    decreases |values|
  {
    var n := |values| - 1;
    if n > 0 {
      AnyTrue(values[..n]);
      assert values == values[..n] + [values[n]];
    }
  }

  /** A part is on exactly if some package turns it on. */
  lemma AnyTurnsOn(packages: seq<Tools>, s: Switch)
    requires packages != []
    ensures On(Flattened(packages), s) <==> exists k :: 0 <= k < |packages| && On(packages[k], s)
  {
    SwitchesOver(s);
    FlattenedReads(packages, Switched(s), Either);
    AnyTrue(Reads(packages, Switched(s)));
  }

  lemma OwnFields(base: Tools, delta: Tools)
    ensures MergeInheritedTools(base, delta).version == delta.version
    ensures MergeInheritedTools(base, delta).base == delta.base
  {
  }

  /** Version and base are the most derived package's own. */
  lemma OwnVersion(packages: seq<Tools>)
    requires packages != []
    ensures Flattened(packages).version == packages[|packages| - 1].version
    ensures Flattened(packages).base == packages[|packages| - 1].base
  {
    var n := |packages| - 1;
    if n > 0 {
      var before, last := Flattened(packages[..n]), packages[n];
      OwnFields(before, last);
      assert Flattened(packages) == MergeInheritedTools(before, last);
    }
  }

  // ----- lists -----

  /** No two items have one key, blank keys aside. */
  predicate OneEach<T>(items: seq<T>, key: T -> string) {
    forall i, j :: 0 <= i < j < |items| && key(items[i]) != "" ==> key(items[i]) != key(items[j])
  }

  predicate Mentions<T>(items: seq<T>, key: T -> string, k: string) {
    exists i :: 0 <= i < |items| && key(items[i]) == k
  }

  lemma MentionsIsHasKey<T>(items: seq<T>, key: T -> string, k: string)
    ensures Mentions(items, key, k) <==> HasKey(items, key, k)
  {
    var r := LastIndex(items, key, k);
  }

  /** Item `i` of list `k` is the last one with its key, in its list and the lists after it. */
  predicate Lasting<T>(lists: seq<seq<T>>, k: nat, i: nat, key: T -> string)
    requires k < |lists| && i < |lists[k]|
  {
    key(lists[k][i]) != "" ==>
      && !Mentions(lists[k][i + 1..], key, key(lists[k][i]))
      && forall j :: k < j < |lists| ==> !Mentions(lists[j], key, key(lists[k][i]))
  }

  /** Item `i` of list `k` is the first one with its key, in its list and the lists before it. */
  predicate Leading<T>(lists: seq<seq<T>>, k: nat, i: nat, key: T -> string)
    requires k < |lists| && i < |lists[k]|
  {
    key(lists[k][i]) != "" ==>
      && !Mentions(lists[k][..i], key, key(lists[k][i]))
      && forall j :: 0 <= j < k ==> !Mentions(lists[j], key, key(lists[k][i]))
  }

  /** Nothing is made up, and if the first list has one item for each key, so has the result. */
  ghost predicate Drawn<T>(lists: seq<seq<T>>, flat: seq<T>, key: T -> string) {
    && (lists != [] && OneEach(lists[0], key) ==> OneEach(flat, key))
    && (forall x :: x in flat ==> exists k :: 0 <= k < |lists| && x in lists[k])
  }

  /** Of each key the last item is there. */
  ghost predicate LastOnes<T>(lists: seq<seq<T>>, flat: seq<T>, key: T -> string) {
    && Drawn(lists, flat, key)
    && (forall k, i :: 0 <= k < |lists| && 0 <= i < |lists[k]| && Lasting(lists, k, i, key) ==> lists[k][i] in flat)
  }

  /** Of each key the first item is there. */
  ghost predicate FirstOnes<T>(lists: seq<seq<T>>, flat: seq<T>, key: T -> string) {
    && Drawn(lists, flat, key)
    && (forall k, i :: 0 <= k < |lists| && 0 <= i < |lists[k]| && Leading(lists, k, i, key) ==> lists[k][i] in flat)
  }

  lemma PutDrawn<T>(items: seq<T>, item: T, key: T -> string)
    ensures OneEach(items, key) ==> OneEach(Put(items, item, key), key)
    ensures item in Put(items, item, key)
    ensures forall x :: x in items && (key(x) == "" || key(x) != key(item)) ==> x in Put(items, item, key)
    ensures forall x :: x in Put(items, item, key) ==> x == item || x in items
  {
    var i, put := LastIndex(items, key, key(item)), Put(items, item, key);
    if key(item) == "" || i < 0 {
      assert put == items + [item] && put[|items|] == item;
    } else {
      assert put[i] == item;
      forall x | x in items && (key(x) == "" || key(x) != key(item)) ensures x in put {
        var j :| 0 <= j < |items| && items[j] == x;
        assert put[j] == x;
      }
    }
  }

  lemma MentionsMore<T>(items: seq<T>, key: T -> string)
    requires items != []
    ensures var n := |items| - 1;
      forall k :: Mentions(items, key, k) <==> Mentions(items[..n], key, k) || key(items[n]) == k
  {
    var n := |items| - 1;
    forall k ensures Mentions(items, key, k) <==> Mentions(items[..n], key, k) || key(items[n]) == k {
      if i :| 0 <= i < n && key(items[..n][i]) == k {
        assert key(items[i]) == k;
      }
      if i :| 0 <= i < |items| && key(items[i]) == k {
        assert i < n ==> key(items[..n][i]) == k;
      }
    }
  }

  lemma {:induction false} MergeDrawn<T>(base: seq<T>, delta: seq<T>, key: T -> string)
    ensures OneEach(base, key) ==> OneEach(Merge(base, delta, key), key)
    ensures forall x :: x in Merge(base, delta, key) ==> x in base || x in delta
    ensures forall x :: x in base && (key(x) == "" || !Mentions(delta, key, key(x))) ==> x in Merge(base, delta, key)
    decreases |delta|
  {
    if delta != [] {
      var n := |delta| - 1;
      MergeDrawn(base, delta[..n], key);
      PutDrawn(Merge(base, delta[..n], key), delta[n], key);
      MentionsMore(delta, key);
    }
  }

  lemma BehindSplits<T>(items: seq<T>, i: nat)
    requires i + 1 < |items|
    ensures var n, behind := |items| - 1, items[i + 1..];
      behind != [] && behind[|behind| - 1] == items[n] && behind[..|behind| - 1] == items[..n][i + 1..]
  {
  }

  lemma PutKeeps<T>(items: seq<T>, item: T, key: T -> string, x: T)
    requires x in items && (key(x) == "" || key(item) != key(x))
    ensures x in Put(items, item, key)
  {
    PutDrawn(items, item, key);
  }

  lemma PutTakes<T>(items: seq<T>, item: T, key: T -> string)
    ensures item in Put(items, item, key)
  {
    PutDrawn(items, item, key);
  }

  /** No item behind this one has its key. */
  predicate LastOfKey<T>(items: seq<T>, key: T -> string, i: nat)
    requires i < |items|
  {
    key(items[i]) == "" || !Mentions(items[i + 1..], key, key(items[i]))
  }

  lemma LastOfKeyBefore<T>(items: seq<T>, key: T -> string, i: nat)
    requires i + 1 < |items| && LastOfKey(items, key, i)
    ensures var n := |items| - 1;
      LastOfKey(items[..n], key, i) && (key(items[i]) == "" || key(items[n]) != key(items[i]))
  {
    BehindSplits(items, i);
    MentionsMore(items[i + 1..], key);
  }

  lemma {:induction false} MergeTakes<T>(base: seq<T>, delta: seq<T>, key: T -> string, i: nat)
    requires i < |delta| && LastOfKey(delta, key, i)
    ensures delta[i] in Merge(base, delta, key)
    decreases |delta|
  {
    var n := |delta| - 1;
    var merged := Merge(base, delta[..n], key);
    if i < n {
      LastOfKeyBefore(delta, key, i);
      MergeTakes(base, delta[..n], key, i);
      PutKeeps(merged, delta[n], key, delta[i]);
    } else {
      PutTakes(merged, delta[n], key);
    }
  }

  lemma AddDrawn<T>(items: seq<T>, item: T, key: T -> string)
    ensures OneEach(items, key) ==> OneEach(Add(items, item, key), key)
    ensures key(item) == "" || !Mentions(items, key, key(item)) ==> item in Add(items, item, key)
    ensures forall x :: x in items ==> x in Add(items, item, key)
    ensures forall x :: x in Add(items, item, key) ==> x == item || x in items
    ensures forall k :: Mentions(Add(items, item, key), key, k) ==> Mentions(items, key, k) || key(item) == k
  {
    var add := Add(items, item, key);
    MentionsIsHasKey(items, key, key(item));
    if add == items + [item] {
      assert add[|items|] == item;
      forall k | Mentions(add, key, k) ensures Mentions(items, key, k) || key(item) == k {
        var i :| 0 <= i < |add| && key(add[i]) == k;
        assert i < |items| ==> key(items[i]) == k;
      }
    }
  }

  lemma {:induction false} AppendDrawn<T>(base: seq<T>, delta: seq<T>, key: T -> string)
    ensures OneEach(base, key) ==> OneEach(AppendUnique(base, delta, key), key)
    ensures forall x :: x in AppendUnique(base, delta, key) ==> x in base || x in delta
    ensures forall x :: x in base ==> x in AppendUnique(base, delta, key)
    ensures forall k :: Mentions(AppendUnique(base, delta, key), key, k) ==>
      Mentions(base, key, k) || Mentions(delta, key, k)
    decreases |delta|
  {
    if delta != [] {
      var n := |delta| - 1;
      AppendDrawn(base, delta[..n], key);
      AddDrawn(AppendUnique(base, delta[..n], key), delta[n], key);
      MentionsMore(delta, key);
    }
  }

  lemma {:induction false} AppendTakes<T>(base: seq<T>, delta: seq<T>, key: T -> string, i: nat)
    requires i < |delta|
    requires key(delta[i]) != "" ==>
      !Mentions(delta[..i], key, key(delta[i])) && !Mentions(base, key, key(delta[i]))
    ensures delta[i] in AppendUnique(base, delta, key)
    decreases |delta|
  {
    var n := |delta| - 1;
    AppendDrawn(base, delta[..n], key);
    AddDrawn(AppendUnique(base, delta[..n], key), delta[n], key);
    if i < n {
      assert delta[..n][..i] == delta[..i];
      AppendTakes(base, delta[..n], key, i);
    }
  }

  // ----- lists over a chain -----

  lemma DrawnMore<T>(lists: seq<seq<T>>, flat: seq<T>, before: seq<T>, key: T -> string)
    requires |lists| > 1 && Drawn(lists[..|lists| - 1], before, key)
    requires OneEach(before, key) ==> OneEach(flat, key)
    requires forall x :: x in flat ==> x in before || x in lists[|lists| - 1]
    ensures Drawn(lists, flat, key)
  {
    var n := |lists| - 1;
    forall x | x in flat ensures exists k :: 0 <= k < |lists| && x in lists[k] {
      if x in before {
        var k :| 0 <= k < n && x in lists[..n][k];
        assert x in lists[k];
      } else {
        assert x in lists[n];
      }
    }
  }

  /** Overlaying a chain of lists leaves the last item of each key. */
  lemma {:induction false} MergedLastOnes<T(!new)>(
    lists: seq<seq<T>>, key: T -> string, overlay: (seq<T>, seq<T>) -> seq<T>)
    requires forall x, y :: overlay(x, y) == Merge(x, y, key)
    requires lists != []
    ensures LastOnes(lists, Folded(lists, overlay), key)
    decreases |lists|
  {
    var n := |lists| - 1;
    if n > 0 {
      var before := Folded(lists[..n], overlay);
      MergedLastOnes(lists[..n], key, overlay);
      MergeDrawn(before, lists[n], key);
      DrawnMore(lists, Folded(lists, overlay), before, key);
      forall k, i | 0 <= k < |lists| && 0 <= i < |lists[k]| && Lasting(lists, k, i, key)
        ensures lists[k][i] in Folded(lists, overlay)
      {
        if k == n {
          MergeTakes(before, lists[n], key, i);
        } else {
          assert Lasting(lists[..n], k, i, key);
          assert lists[..n][k][i] in before;
        }
      }
    }
  }

  lemma {:induction false} UnitedMentions<T(!new)>(
    lists: seq<seq<T>>, key: T -> string, overlay: (seq<T>, seq<T>) -> seq<T>, k: string)
    requires forall x, y :: overlay(x, y) == AppendUnique(x, y, key)
    requires lists != [] && Mentions(Folded(lists, overlay), key, k)
    ensures exists j :: 0 <= j < |lists| && Mentions(lists[j], key, k)
    decreases |lists|
  {
    var n := |lists| - 1;
    if n == 0 {
      assert Mentions(lists[0], key, k);
    } else {
      AppendDrawn(Folded(lists[..n], overlay), lists[n], key);
      if Mentions(Folded(lists[..n], overlay), key, k) {
        UnitedMentions(lists[..n], key, overlay, k);
        var j :| 0 <= j < n && Mentions(lists[..n][j], key, k);
        assert Mentions(lists[j], key, k);
      }
    }
  }

  /** Adding up a chain of lists leaves the first item of each key. */
  lemma {:induction false} UnitedFirstOnes<T(!new)>(
    lists: seq<seq<T>>, key: T -> string, overlay: (seq<T>, seq<T>) -> seq<T>)
    requires forall x, y :: overlay(x, y) == AppendUnique(x, y, key)
    requires lists != []
    ensures FirstOnes(lists, Folded(lists, overlay), key)
    decreases |lists|
  {
    var n := |lists| - 1;
    if n > 0 {
      var before := Folded(lists[..n], overlay);
      UnitedFirstOnes(lists[..n], key, overlay);
      AppendDrawn(before, lists[n], key);
      DrawnMore(lists, Folded(lists, overlay), before, key);
      forall k, i | 0 <= k < |lists| && 0 <= i < |lists[k]| && Leading(lists, k, i, key)
        ensures lists[k][i] in Folded(lists, overlay)
      {
        if k == n {
          if key(lists[n][i]) != "" && Mentions(before, key, key(lists[n][i])) {
            UnitedMentions(lists[..n], key, overlay, key(lists[n][i]));
          }
          AppendTakes(before, lists[n], key, i);
        } else {
          assert Leading(lists[..n], k, i, key);
          assert lists[..n][k][i] in before;
        }
      }
    }
  }

  // ----- the lists of a package -----

  function Overlaying<T>(key: T -> string): (seq<T>, seq<T>) -> seq<T> {
    (x: seq<T>, y: seq<T>) => Merge(x, y, key)
  }

  function Uniting<T>(key: T -> string): (seq<T>, seq<T>) -> seq<T> {
    (x: seq<T>, y: seq<T>) => AppendUnique(x, y, key)
  }

  lemma FlattenedMerged<T(!new)>(packages: seq<Tools>, list: Tools -> seq<T>, key: T -> string)
    requires packages != [] && ReadsOver(list, Overlaying(key))
    ensures LastOnes(Reads(packages, list), list(Flattened(packages)), key)
  {
    FlattenedReads(packages, list, Overlaying(key));
    MergedLastOnes(Reads(packages, list), key, Overlaying(key));
  }

  lemma FlattenedUnited<T(!new)>(packages: seq<Tools>, list: Tools -> seq<T>, key: T -> string)
    requires packages != [] && ReadsOver(list, Uniting(key))
    ensures FirstOnes(Reads(packages, list), list(Flattened(packages)), key)
  {
    FlattenedReads(packages, list, Uniting(key));
    UnitedFirstOnes(Reads(packages, list), key, Uniting(key));
  }

  /** Keys that agree on every item are the same for these laws. */
  lemma SameKey<T(!new)>(lists: seq<seq<T>>, flat: seq<T>, key: T -> string, key': T -> string)
    requires forall x :: key(x) == key'(x)
    ensures LastOnes(lists, flat, key) ==> LastOnes(lists, flat, key')
    ensures FirstOnes(lists, flat, key) ==> FirstOnes(lists, flat, key')
  {
    assert OneEach(flat, key) ==> OneEach(flat, key');
    assert lists != [] && OneEach(lists[0], key') ==> OneEach(lists[0], key);
    forall k, i | 0 <= k < |lists| && 0 <= i < |lists[k]|
      ensures Lasting(lists, k, i, key') ==> Lasting(lists, k, i, key)
      ensures Leading(lists, k, i, key') ==> Leading(lists, k, i, key)
    {
      MentionsSame(key, key');
    }
  }

  lemma MentionsSame<T(!new)>(key: T -> string, key': T -> string)
    requires forall x :: key(x) == key'(x)
    ensures forall items: seq<T>, k :: Mentions(items, key, k) <==> Mentions(items, key', k)
  {
  }

  // What is left of a chain: the last command, server, readable domain, preset and validation
  // of each name up to white space, and the first write domain, sensitivity and flow.

  lemma LastCommandsLeft(packages: seq<Tools>)
    requires packages != []
    ensures LastOnes(Reads(packages, (t: Tools) => t.localExec.commands), Flattened(packages).localExec.commands,
      (c: Command) => Trim(c.name))
  {
    var list := (t: Tools) => t.localExec.commands;
    FlattenedMerged(packages, list, CommandKey);
    SameKey(Reads(packages, list), list(Flattened(packages)), CommandKey, (c: Command) => Trim(c.name));
  }

  lemma LastServersLeft(packages: seq<Tools>)
    requires packages != []
    ensures LastOnes(Reads(packages, (t: Tools) => t.mcp.servers), Flattened(packages).mcp.servers,
      (s: Server) => Trim(s.name))
  {
    var list := (t: Tools) => t.mcp.servers;
    FlattenedMerged(packages, list, ServerKey);
    SameKey(Reads(packages, list), list(Flattened(packages)), ServerKey, (s: Server) => Trim(s.name));
  }

  lemma LastDomainsLeft(packages: seq<Tools>)
    requires packages != []
    ensures LastOnes(Reads(packages, (t: Tools) => t.memory.readDomains), Flattened(packages).memory.readDomains,
      (d: Domain) => Trim(d.id))
  {
    var list := (t: Tools) => t.memory.readDomains;
    FlattenedMerged(packages, list, DomainKey);
    SameKey(Reads(packages, list), list(Flattened(packages)), DomainKey, (d: Domain) => Trim(d.id));
  }

  lemma LastPresetsLeft(packages: seq<Tools>)
    requires packages != []
    ensures LastOnes(Reads(packages, (t: Tools) => t.nodePresets), Flattened(packages).nodePresets,
      (p: Preset) => Trim(p.id))
  {
    var list := (t: Tools) => t.nodePresets;
    FlattenedMerged(packages, list, PresetKey);
    SameKey(Reads(packages, list), list(Flattened(packages)), PresetKey, (p: Preset) => Trim(p.id));
  }

  lemma LastValidationsLeft(packages: seq<Tools>)
    requires packages != []
    ensures LastOnes(Reads(packages, (t: Tools) => t.validations), Flattened(packages).validations,
      (v: Validation) => Trim(v.id))
  {
    var list := (t: Tools) => t.validations;
    FlattenedMerged(packages, list, ValidationKey);
    SameKey(Reads(packages, list), list(Flattened(packages)), ValidationKey, (v: Validation) => Trim(v.id));
  }

  lemma FirstWriteDomainsLeft(packages: seq<Tools>)
    requires packages != []
    ensures FirstOnes(Reads(packages, (t: Tools) => t.memory.writeDomains), Flattened(packages).memory.writeDomains,
      (s: string) => Trim(s))
  {
    var list := (t: Tools) => t.memory.writeDomains;
    FlattenedUnited(packages, list, TextKey);
    SameKey(Reads(packages, list), list(Flattened(packages)), TextKey, (s: string) => Trim(s));
  }

  lemma FirstSensitivitiesLeft(packages: seq<Tools>)
    requires packages != []
    ensures FirstOnes(Reads(packages, (t: Tools) => t.memory.allowedSensitivities),
      Flattened(packages).memory.allowedSensitivities, (s: string) => Trim(s))
  {
    var list := (t: Tools) => t.memory.allowedSensitivities;
    FlattenedUnited(packages, list, TextKey);
    SameKey(Reads(packages, list), list(Flattened(packages)), TextKey, (s: string) => Trim(s));
  }

  lemma FirstFlowsLeft(packages: seq<Tools>)
    requires packages != []
    ensures FirstOnes(Reads(packages, (t: Tools) => t.memory.allowedFlows), Flattened(packages).memory.allowedFlows,
      MemoryFlowKey)
  {
    FlattenedUnited(packages, (t: Tools) => t.memory.allowedFlows, MemoryFlowKey);
  }

  // ----- when two flows are taken for one -----

  /** A flow with a blank end is never taken for another; two with no blank end are, exactly if
      their ends are the same up to white space, or an arrow in an end makes it look so. */
  lemma FlowsCoincide(f: Flow, g: Flow)
    ensures MemoryFlowKey(f) == "" <==> Blank(f.from) || Blank(f.to)
    ensures MemoryFlowKey(f) != "" && MemoryFlowKey(g) != "" ==>
      (MemoryFlowKey(f) == MemoryFlowKey(g) <==>
        || (Trim(f.from) == Trim(g.from) && Trim(f.to) == Trim(g.to))
        || ArrowExtends(f, g) || ArrowExtends(g, f))
  {
    if MemoryFlowKey(f) != "" && MemoryFlowKey(g) != "" {
      ArrowsMeet(Trim(f.from), Trim(g.from), Trim(f.to), Trim(g.to));
      ArrowsMeet(Trim(g.from), Trim(f.from), Trim(g.to), Trim(f.to));
    }
  }

  /** The one source is the other's with more behind it that the other's destination makes up
      for. */
  predicate ArrowExtends(f: Flow, g: Flow) {
    var a, b := Trim(f.from), Trim(g.from);
    |a| < |b| && a <= b && "->" + Trim(f.to) == b[|a|..] + "->" + Trim(g.to)
  }

  lemma LongerStart(a: string, b: string, u: string, v: string)
    requires |a| <= |b|
    ensures a + u == b + v <==> a <= b && u == b[|a|..] + v
  {
    var s, t := a + u, b + v;
    assert s[..|a|] == a && t[..|a|] == b[..|a|];
    assert s[|a|..] == u && t[|a|..] == b[|a|..] + v;
    assert a <= b <==> a == b[..|a|];
    assert s == s[..|a|] + s[|a|..] && t == t[..|a|] + t[|a|..];
  }

  lemma ArrowsMeet(a: string, b: string, u: string, v: string)
    ensures |a| == |b| ==> (a + "->" + u == b + "->" + v <==> a == b && u == v)
    ensures |a| < |b| ==> (a + "->" + u == b + "->" + v <==> a <= b && "->" + u == b[|a|..] + "->" + v)
  {
    assert a + "->" + u == a + ("->" + u) && b + "->" + v == b + ("->" + v);
    assert ("->" + u)[2..] == u && ("->" + v)[2..] == v;
    if |a| <= |b| {
      LongerStart(a, b, "->" + u, "->" + v);
      assert b[|a|..] + ("->" + v) == b[|a|..] + "->" + v;
      assert |a| == |b| ==> b[|a|..] + ("->" + v) == "->" + v;
    }
  }

  // ----- loading, told by the files -----

  /** Nothing is set, nothing is on and every list is empty. */
  predicate SetsNothing(t: Tools) {
    && t.name == "" && t.version == "" && t.base == ""
    && !t.localExec.enabled && t.localExec.defaultTimeout == "" && t.localExec.defaultMaxOutputBytes == 0
    && t.localExec.commands == [] && !t.mcp.enabled && t.mcp.servers == []
    && t.memory.actor == "" && t.memory.readDomains == [] && t.memory.writeDomains == []
    && t.memory.defaultWriteDomain == "" && t.memory.allowedSensitivities == [] && t.memory.allowedFlows == []
    && t.nodePresets == [] && t.validations == []
  }

  /** A file that extends nothing is its own tools if they are valid. A file that is broken is
      an error, and so is one that is not there, except that the default file, when nobody asks
      for it, may be missing and then sets nothing. */
  lemma LoadAlone(w: World, path: string, explicit: bool)
    ensures var p := if Blank(path) then w.defaultPath else path;
      var id, r := w.identity(p), Load(w, path, explicit, {});
      if id !in w.files then
        if explicit || p != w.defaultPath then r == Err(Undecodable)
        else r == Err(Invalid) || (r.Ok? && SetsNothing(r.value) && w.valid(r.value))
      else
        match w.files[id]
        case Broken => r == Err(Undecodable)
        case Parsed(tools) => Blank(tools.base) ==> r == if w.valid(tools) then Ok(tools) else Err(Invalid)
  {
    assert Blank("");
  }

  lemma TwoFlattened(base: Tools, tools: Tools)
    ensures Flattened([base, tools]) == MergeInheritedTools(base, tools)
  {
    assert [base, tools][..1] == [base];
  }

  lemma LoadRoot(w: World, path: string, visited: set<string>, tools: Tools)
    requires !Blank(path) && w.identity(path) in w.files && w.files[w.identity(path)] == Parsed(tools)
    requires Blank(tools.base) && w.identity(path) !in visited
    ensures Load(w, path, true, visited) == if w.valid(tools) then Ok(tools) else Err(Invalid)
  {
  }

  lemma LoadOver(w: World, path: string, explicit: bool, tools: Tools)
    requires !Blank(path) && w.identity(path) in w.files && w.files[w.identity(path)] == Parsed(tools)
    requires !Blank(tools.base)
    ensures var base := Load(w, w.locate(path, tools.base), true, {w.identity(path)});
      Load(w, path, explicit, {}) ==
        if base.Err? then base
        else if w.valid(MergeInheritedTools(base.value, tools)) then Ok(MergeInheritedTools(base.value, tools))
        else Err(Invalid)
  {
    assert {} + {w.identity(path)} == {w.identity(path)};
  }

  /** A file that extends another which extends nothing is the two overlaid, if both steps are
      valid; one that extends itself is a cycle. */
  lemma LoadTwo(w: World, path: string, explicit: bool, tools: Tools)
    requires !Blank(path) && w.identity(path) in w.files && w.files[w.identity(path)] == Parsed(tools)
    requires !Blank(tools.base) && !Blank(w.locate(path, tools.base))
    ensures var id := w.identity(w.locate(path, tools.base));
      var r := Load(w, path, explicit, {});
      && (id == w.identity(path) ==> r == Err(Cycle))
      && (id != w.identity(path) && id in w.files && w.files[id].Parsed? && Blank(w.files[id].tools.base) ==>
            var base := w.files[id].tools;
            var flat := Flattened([base, tools]);
            r == if w.valid(base) && w.valid(flat) then Ok(flat) else Err(Invalid))
  {
    var q := w.locate(path, tools.base);
    var id := w.identity(q);
    LoadOver(w, path, explicit, tools);
    if id != w.identity(path) && id in w.files && w.files[id].Parsed? && Blank(w.files[id].tools.base) {
      LoadRoot(w, q, {w.identity(path)}, w.files[id].tools);
      TwoFlattened(w.files[id].tools, tools);
    }
  }
}

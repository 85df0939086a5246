/**
 The ordering of market groups in desktop-app/cmd/sde-import/main.go: depth walks a group's
 parents, and run sorts the groups by it so that parents are emitted before their children.
 */
module MarketGroupOrder {
  import opened Wrappers

  /** A row of marketGroups.jsonl. */
  datatype MarketGroup = MarketGroup(key: int, parent: Option<int>, name: string)

  predicate UniqueKeys(all: seq<MarketGroup>) {
    forall i, j :: 0 <= i < j < |all| ==> all[i].key != all[j].key
  }

  predicate Has(all: seq<MarketGroup>, key: int) { exists i :: 0 <= i < |all| && all[i].key == key }

  /** The parent of the first row with the key. */
  function ParentOf(all: seq<MarketGroup>, key: int): Option<int> {
    if all == [] then None else if all[0].key == key then all[0].parent else ParentOf(all[1..], key)
  }

  /** The length of the walk from `p`, cut off after `fuel` steps. */
  function Walk(p: Option<int>, all: seq<MarketGroup>, fuel: nat): nat
    decreases fuel
  {
    if p == None || fuel == 0 then 0 else 1 + Walk(ParentOf(all, p.value), all, fuel - 1)
  }

  function Depth(c: MarketGroup, all: seq<MarketGroup>): nat { Walk(c.parent, all, |all|) }

  lemma {:induction false} ParentOfRow(all: seq<MarketGroup>, i: nat)
    requires i < |all| && UniqueKeys(all)
    ensures ParentOf(all, all[i].key) == all[i].parent
  {
    if i > 0 {
      ParentOfRow(all[1..], i - 1);
    }
  }

  lemma {:induction false} NoParentOfMissing(all: seq<MarketGroup>, key: int)
    requires !Has(all, key)
    ensures ParentOf(all, key) == None
  {
    if all != [] {
      assert all[0].key != key;
      forall i | 0 <= i < |all[1..]|
        ensures all[1..][i].key != key
      {
        assert all[1..][i] == all[i + 1];
      }
      NoParentOfMissing(all[1..], key);
    }
  }

  /** The inner loop of depth. */
  method LookUp(all: seq<MarketGroup>, key: int) returns (next: Option<int>)
    ensures next == ParentOf(all, key)
  {
    next := None;
    var i := 0;
    while i < |all|
      invariant 0 <= i <= |all| && ParentOf(all, key) == ParentOf(all[i..], key)
    {
      if all[i].key == key {
        return all[i].parent;
      }
      assert all[i..][1..] == all[i + 1..];
      i := i + 1;
    }
  }

  method ComputeDepth(c: MarketGroup, all: seq<MarketGroup>) returns (d: nat)
    ensures d == Depth(c, all)
  {
    var p := c.parent;
    d := 0;
    while p.Some? && d < |all|
      invariant d <= |all| && Depth(c, all) == d + Walk(p, all, |all| - d)
      decreases |all| - d
    {
      d := d + 1;
      p := LookUp(all, p.value);
    }
  }

  // ---------------------------------------------------------------- walks that end

  /** The walk from `p` leaves the table, or reaches a row without parent, within `n` steps. */
  predicate Ends(p: Option<int>, all: seq<MarketGroup>, n: nat)
    decreases n
  {
    p == None || (n > 0 && Ends(ParentOf(all, p.value), all, n - 1))
  }

  ghost predicate Endless(p: Option<int>, all: seq<MarketGroup>) { forall n: nat :: !Ends(p, all, n) }

  lemma {:induction false} WalkCut(p: Option<int>, all: seq<MarketGroup>, fuel: nat, n: nat)
    requires Ends(p, all, n)
    ensures Walk(p, all, n) <= n && Walk(p, all, fuel) == if fuel < Walk(p, all, n) then fuel else Walk(p, all, n)
    decreases n
  {
    if p != None && fuel > 0 {
      WalkCut(ParentOf(all, p.value), all, fuel - 1, n - 1);
    } else if p != None {
      WalkCut(ParentOf(all, p.value), all, 0, n - 1);
    }
  }

  lemma {:induction false} EndlessWalk(p: Option<int>, all: seq<MarketGroup>, fuel: nat)
    requires Endless(p, all)
    ensures Walk(p, all, fuel) == fuel
    decreases fuel
  {
    assert !Ends(p, all, 0);
    if fuel > 0 {
      EndlessNext(p, all);
      EndlessWalk(ParentOf(all, p.value), all, fuel - 1);
    }
  }

  lemma EndlessNext(p: Option<int>, all: seq<MarketGroup>)
    requires p.Some?
    ensures Endless(p, all) <==> Endless(ParentOf(all, p.value), all)
  {
    var next := ParentOf(all, p.value);
    if Endless(p, all) {
      forall n: nat
        ensures !Ends(next, all, n)
      {
        assert !Ends(p, all, n + 1);
      }
    }
    if Endless(next, all) {
      forall n: nat
        ensures !Ends(p, all, n)
      {
        assert n > 0 ==> !Ends(next, all, n - 1);
      }
    }
  }

  // ---------------------------------------------------------------- the cut-off is never met

  function Keys(all: seq<MarketGroup>): set<int> { set c | c in all :: c.key }

  lemma {:induction false} KeysBounded(all: seq<MarketGroup>)
    ensures |Keys(all)| <= |all|
  {
    if all != [] {
      KeysBounded(all[1..]);
      assert all == [all[0]] + all[1..];
      assert Keys(all) == {all[0].key} + Keys(all[1..]);
    }
  }

  /** Rows on an ending walk are distinct: as many keys as steps, all with shorter walks than `c`'s. */
  lemma {:induction false} WalkKeys(all: seq<MarketGroup>, c: MarketGroup, n: nat) returns (keys: set<int>)
    requires UniqueKeys(all) && c in all && Ends(c.parent, all, n)
    ensures keys <= Keys(all) && c.key in keys && |keys| >= Walk(c.parent, all, n) && |keys| >= 1
    ensures forall d :: d in all && d.key in keys ==>
      Ends(d.parent, all, n) && Walk(d.parent, all, n) <= Walk(c.parent, all, n)
    decreases n
  {
    if c.parent == None || !Has(all, c.parent.value) {
      if c.parent.Some? {
        NoParentOfMissing(all, c.parent.value);
      }
      keys := {c.key};
    } else {
      var i :| 0 <= i < |all| && all[i].key == c.parent.value;
      ParentOfRow(all, i);
      var rest := WalkKeys(all, all[i], n - 1);
      keys := rest + {c.key};
      forall d | d in all && d.key in rest
        ensures Ends(d.parent, all, n) && Walk(d.parent, all, n) < Walk(c.parent, all, n)
      {
        EndsLater(d.parent, all, n - 1, n);
        WalkCut(d.parent, all, n, n - 1);
      }
      assert c.key !in rest;
    }
  }

  lemma {:induction false} EndsLater(p: Option<int>, all: seq<MarketGroup>, m: nat, n: nat)
    requires m <= n && Ends(p, all, m)
    ensures Ends(p, all, n)
    decreases m
  {
    if p != None {
      EndsLater(ParentOf(all, p.value), all, m - 1, n - 1);
    }
  }

  /** A present parent is strictly less deep, whatever the cut-off, unless its walk never ends. */
  lemma DepthOfParent(all: seq<MarketGroup>, c: MarketGroup, parent: MarketGroup)
    requires UniqueKeys(all) && c in all && parent in all && c.parent == Some(parent.key)
    ensures !Endless(c.parent, all) ==> Depth(parent, all) < Depth(c, all)
    ensures Endless(c.parent, all) ==> Depth(parent, all) == Depth(c, all) == |all|
  {
    var i :| 0 <= i < |all| && all[i] == parent;
    ParentOfRow(all, i);
    if Endless(c.parent, all) {
      EndlessNext(c.parent, all);
      EndlessWalk(c.parent, all, |all|);
      EndlessWalk(parent.parent, all, |all|);
    } else {
      var n: nat :| Ends(c.parent, all, n);
      WalkFits(all, c, n);
      WalkCut(c.parent, all, |all|, n);
      WalkCut(parent.parent, all, |all|, n - 1);
    }
  }

  /** An ending walk takes no more steps than there are rows. */
  lemma WalkFits(all: seq<MarketGroup>, c: MarketGroup, n: nat)
    requires UniqueKeys(all) && c in all && Ends(c.parent, all, n)
    ensures Walk(c.parent, all, n) <= |all|
  {
    var keys := WalkKeys(all, c, n);
    KeysBounded(all);
    assert Keys(all) == keys + (Keys(all) - keys);
  }

  // ---------------------------------------------------------------- the sort

  ghost predicate Permutes(a: seq<MarketGroup>, b: seq<MarketGroup>) { multiset(a) == multiset(b) }

  /** Depth does not depend on the order of the table, so comparing while sorting is sound. */
  lemma DepthPermutes(a: seq<MarketGroup>, b: seq<MarketGroup>, c: MarketGroup)
    requires Permutes(a, b) && UniqueKeys(a)
    ensures UniqueKeys(b) && |a| == |b| && Depth(c, a) == Depth(c, b)
  {
    UniquePermutes(a, b);
    assert |a| == |multiset(a)| && |b| == |multiset(b)|;
    forall key
      ensures ParentOf(a, key) == ParentOf(b, key)
    {
      SameParent(a, b, key);
    }
    WalkSame(c.parent, a, b, |a|);
  }

  lemma UniquePermutes(a: seq<MarketGroup>, b: seq<MarketGroup>)
    requires Permutes(a, b) && UniqueKeys(a)
    ensures UniqueKeys(b)
  {
    forall i, j | 0 <= i < j < |b|
      ensures b[i].key != b[j].key
    {
      if b[i].key == b[j].key {
        TwoCopies(b, i, j);
        assert b[i] in multiset(a) && b[j] in multiset(a);
        assert b[i] in a && b[j] in a;
        OneCopy(a, b[i]);
      }
    }
  }

  lemma TwoCopies(b: seq<MarketGroup>, i: nat, j: nat)
    requires i < j < |b|
    ensures b[i] == b[j] ==> multiset(b)[b[i]] >= 2
  {
    assert b == b[..j] + b[j..] && b[j..] == [b[j]] + b[j + 1..];
    assert b[i] in b[..j];
  }

  lemma {:induction false} OneCopy(a: seq<MarketGroup>, c: MarketGroup)
    requires UniqueKeys(a)
    ensures multiset(a)[c] <= 1
  {
    if a != [] {
      assert a == [a[0]] + a[1..];
      OneCopy(a[1..], c);
      if a[0] == c {
        assert c !in a[1..];
      }
    }
  }

  lemma SameParent(a: seq<MarketGroup>, b: seq<MarketGroup>, key: int)
    requires Permutes(a, b) && UniqueKeys(a) && UniqueKeys(b)
    ensures ParentOf(a, key) == ParentOf(b, key)
  {
    if Has(a, key) {
      var i :| 0 <= i < |a| && a[i].key == key;
      assert a[i] in multiset(b) && a[i] in b;
      var j :| 0 <= j < |b| && b[j] == a[i];
      ParentOfRow(a, i);
      ParentOfRow(b, j);
    } else {
      forall j | 0 <= j < |b|
        ensures b[j].key != key
      {
        assert b[j] in multiset(a) && b[j] in a;
      }
      NoParentOfMissing(a, key);
      NoParentOfMissing(b, key);
    }
  }

  lemma {:induction false} WalkSame(p: Option<int>, a: seq<MarketGroup>, b: seq<MarketGroup>, fuel: nat)
    requires forall key :: ParentOf(a, key) == ParentOf(b, key)
    ensures Walk(p, a, fuel) == Walk(p, b, fuel)
    decreases fuel
  {
    if p != None && fuel > 0 {
      WalkSame(ParentOf(a, p.value), a, b, fuel - 1);
    }
  }

  ghost predicate SortedByDepth(s: seq<MarketGroup>, all: seq<MarketGroup>) {
    forall i, j :: 0 <= i < j < |s| ==> Depth(s[i], all) <= Depth(s[j], all)
  }

  /** Row `a` comes before row `b`. */
  ghost predicate Before(s: seq<MarketGroup>, a: MarketGroup, b: MarketGroup) {
    exists i, j :: 0 <= i < j < |s| && s[i] == a && s[j] == b
  }

  /** Rows of equal depth keep their order. */
  ghost predicate Stable(input: seq<MarketGroup>, output: seq<MarketGroup>) {
    forall a, b {:trigger Before(output, a, b)} :: Before(input, a, b) && Depth(a, input) == Depth(b, input) ==>
      Before(output, a, b)
  }

  /** Exchanging two neighbours of different depth is a step of a stable sort. */
  lemma SwapKeeps(input: seq<MarketGroup>, s: seq<MarketGroup>, j: nat)
    requires 0 < j < |s| && Permutes(input, s) && Stable(input, s)
    requires Depth(s[j], input) != Depth(s[j - 1], input)
    ensures Permutes(input, Swapped(s, j)) && Stable(input, Swapped(s, j))
  {
    var t := s[j - 1 := s[j]][j := s[j - 1]];
    assert s == s[..j - 1] + [s[j - 1], s[j]] + s[j + 1..];
    assert t == s[..j - 1] + [s[j], s[j - 1]] + s[j + 1..];
    forall a, b | Before(input, a, b) && Depth(a, input) == Depth(b, input)
      ensures Before(t, a, b)
    {
      assert Before(s, a, b);
      var x, y :| 0 <= x < y < |s| && s[x] == a && s[y] == b;
      SwapBefore(s, t, j, x, y);
    }
  }

  lemma SwapBefore(s: seq<MarketGroup>, t: seq<MarketGroup>, j: nat, x: nat, y: nat)
    requires 0 < j < |s| && x < y < |s| && !(x == j - 1 && y == j)
    requires t == s[j - 1 := s[j]][j := s[j - 1]]
    ensures Before(t, s[x], s[y])
  {
    var x' := if x == j - 1 then j else if x == j then j - 1 else x;
    var y' := if y == j - 1 then j else if y == j then j - 1 else y;
    assert x' < y' && t[x'] == s[x] && t[y'] == s[y];
  }

  /** The array is sorted up to `i`, except that the row at `j` may have to move further down. */
  ghost predicate Sifting(s: seq<MarketGroup>, input: seq<MarketGroup>, i: nat, j: nat)
    requires j <= i < |s|
  {
    && (forall x, y :: 0 <= x < y <= i && x != j && y != j ==> Depth(s[x], input) <= Depth(s[y], input))
    && (forall y :: j < y <= i ==> Depth(s[j], input) < Depth(s[y], input))
  }

  ghost predicate Sorting(input: seq<MarketGroup>, s: seq<MarketGroup>, i: nat, j: nat)
    requires j <= i < |s|
  {
    Permutes(input, s) && Stable(input, s) && Sifting(s, input, i, j)
  }

  function Swapped(s: seq<MarketGroup>, j: nat): seq<MarketGroup>
    requires 0 < j < |s|
  {
    s[j - 1 := s[j]][j := s[j - 1]]
  }

  lemma SwapSorts(input: seq<MarketGroup>, s: seq<MarketGroup>, i: nat, j: nat)
    requires 0 < j <= i < |s| && Sorting(input, s, i, j) && Depth(s[j], input) < Depth(s[j - 1], input)
    ensures Sorting(input, Swapped(s, j), i, j - 1)
  {
    SwapKeeps(input, s, j);
    SiftedOnce(s, input, i, j);
  }

  lemma SiftedOnce(s: seq<MarketGroup>, input: seq<MarketGroup>, i: nat, j: nat)
    requires 0 < j <= i < |s| && Sifting(s, input, i, j) && Depth(s[j], input) < Depth(s[j - 1], input)
    ensures Sifting(Swapped(s, j), input, i, j - 1)
  {
  }

  /** One inner loop of the insertion sort: row `i` moves down to its place. */
  method SiftDown(a: array<MarketGroup>, ghost input: seq<MarketGroup>, i: nat)
    requires i < a.Length && UniqueKeys(input) && Permutes(input, a[..]) && Stable(input, a[..])
    requires SortedByDepth(a[..i], input)
    modifies a
    ensures Permutes(input, a[..]) && Stable(input, a[..]) && SortedByDepth(a[..i + 1], input)
  {
    var j := i;
    assert a[..][..i] == a[..i];
    SiftStart(a[..], input, i);
    var less := IsLess(a, input, j);
    while less
      invariant 0 <= j <= i && Sorting(input, a[..], i, j)
      invariant less <==> j > 0 && Depth(a[..][j], input) < Depth(a[..][j - 1], input)
      decreases j
    {
      SwapSorts(input, a[..], i, j);
      Swap(a, j);
      j := j - 1;
      less := IsLess(a, input, j);
    }
    SiftedAll(a[..], input, i, j);
    assert a[..i + 1] == a[..][..i + 1];
  }

  method Swap(a: array<MarketGroup>, j: nat)
    requires 0 < j < a.Length
    modifies a
    ensures a[..] == Swapped(old(a[..]), j)
  {
    a[j], a[j - 1] := a[j - 1], a[j];
  }

  lemma SiftStart(s: seq<MarketGroup>, input: seq<MarketGroup>, i: nat)
    requires i < |s| && SortedByDepth(s[..i], input)
    ensures Sifting(s, input, i, i)
  {
    assert forall x :: 0 <= x < i ==> s[..i][x] == s[x];
  }

  lemma SiftedAll(s: seq<MarketGroup>, input: seq<MarketGroup>, i: nat, j: nat)
    requires j <= i < |s| && Sifting(s, input, i, j) && (j > 0 ==> Depth(s[j - 1], input) <= Depth(s[j], input))
    ensures SortedByDepth(s[..i + 1], input)
  {
  }

  /** The comparison function of the sort, evaluated on the table as it is at that moment. */
  method IsLess(a: array<MarketGroup>, ghost input: seq<MarketGroup>, j: nat) returns (less: bool)
    requires j < a.Length && UniqueKeys(input) && Permutes(input, a[..])
    ensures less <==> j > 0 && Depth(a[..][j], input) < Depth(a[..][j - 1], input)
  {
    if j == 0 {
      return false;
    }
    DepthPermutes(input, a[..], a[j]);
    DepthPermutes(input, a[..], a[j - 1]);
    var x := ComputeDepth(a[j], a[..]);
    var y := ComputeDepth(a[j - 1], a[..]);
    less := x < y;
  }

  /** The stable sort of run. */
  method SortMarketGroups(a: array<MarketGroup>)
    requires UniqueKeys(a[..])
    modifies a
    ensures Permutes(old(a[..]), a[..]) && Stable(old(a[..]), a[..]) && SortedByDepth(a[..], old(a[..]))
  {
    ghost var input := a[..];
    var i := 0;
    while i < a.Length
      invariant 0 <= i <= a.Length && Permutes(input, a[..]) && Stable(input, a[..]) && SortedByDepth(a[..i], input)
    {
      SiftDown(a, input, i);
      i := i + 1;
    }
    assert a[..a.Length] == a[..];
  }

  // ---------------------------------------------------------------- parents first

  /** SQLite accepts the rows one by one: the parent is stored already, or is the row itself. */
  ghost predicate ParentsFirst(s: seq<MarketGroup>) {
    forall i {:trigger s[i]} :: 0 <= i < |s| ==> ParentStored(s, i)
  }

  ghost predicate ParentStored(s: seq<MarketGroup>, i: nat)
    requires i < |s|
  {
    s[i].parent == None || exists j :: 0 <= j <= i && s[i].parent == Some(s[j].key)
  }

  /**
   What the input must meet, row by row: the parent exists, and if the walk over the parents
   never ends, the input itself has the parent first or the row is its own parent.
   */
  ghost predicate Sound(input: seq<MarketGroup>, c: MarketGroup) {
    c.parent.Some? ==>
      && Has(input, c.parent.value)
      && (Endless(c.parent, input) ==>
           c.parent == Some(c.key) || exists p: MarketGroup :: p.key == c.parent.value && Before(input, p, c))
  }

  lemma BeforeIsOrder(s: seq<MarketGroup>, a: MarketGroup, b: MarketGroup)
    requires UniqueKeys(s) && Before(s, a, b)
    ensures a != b && !Before(s, b, a)
  {
  }

  lemma Comparable(s: seq<MarketGroup>, a: MarketGroup, b: MarketGroup)
    requires a in s && b in s && a != b
    ensures Before(s, a, b) || Before(s, b, a)
  {
  }

  /** A stable sort by depth puts a parent first exactly if its row is sound. */
  lemma ParentPlaced(input: seq<MarketGroup>, output: seq<MarketGroup>, c: MarketGroup, p: MarketGroup)
    requires UniqueKeys(input) && UniqueKeys(output) && Permutes(input, output) && Stable(input, output) &&
      SortedByDepth(output, input)
    requires c in input && p in input && c.parent == Some(p.key) && p != c
    ensures Before(output, p, c) <==> Sound(input, c)
  {
    assert c in multiset(output) && p in multiset(output);
    Comparable(output, p, c);
    Comparable(input, p, c);
    DepthOfParent(input, c, p);
    if Before(input, p, c) {
      BeforeIsOrder(input, p, c);
    }
    if Before(output, p, c) {
      BeforeIsOrder(output, p, c);
    }
    if Before(output, c, p) {
      var i, j :| 0 <= i < j < |output| && output[i] == c && output[j] == p;
      assert Depth(c, input) <= Depth(p, input);
    }
    if q: MarketGroup :| q.key == c.parent.value && Before(input, q, c) {
      assert q == p;
    }
  }

  /**
   The sorted rows can be inserted one by one exactly if every row of the input is sound.
   */
  lemma SortedParentsFirst(input: seq<MarketGroup>, output: seq<MarketGroup>)
    requires UniqueKeys(input) && Permutes(input, output) && Stable(input, output) && SortedByDepth(output, input)
    ensures ParentsFirst(output) <==> forall c :: c in input ==> Sound(input, c)
  {
    UniquePermutes(input, output);
    if ParentsFirst(output) {
      forall c | c in input
        ensures Sound(input, c)
      {
        assert c in multiset(output) && c in output;
        var i :| 0 <= i < |output| && output[i] == c;
        StoredIsSound(input, output, i);
      }
    }
    if forall c :: c in input ==> Sound(input, c) {
      forall i | 0 <= i < |output|
        ensures ParentStored(output, i)
      {
        assert output[i] in multiset(input) && output[i] in input;
        SoundIsStored(input, output, i);
      }
    }
  }

  lemma StoredIsSound(input: seq<MarketGroup>, output: seq<MarketGroup>, i: nat)
    requires UniqueKeys(input) && UniqueKeys(output) && Permutes(input, output) && Stable(input, output) &&
      SortedByDepth(output, input)
    requires i < |output| && ParentStored(output, i)
    ensures Sound(input, output[i])
  {
    var c := output[i];
    assert c in multiset(input) && c in input;
    if c.parent.Some? {
      var j :| 0 <= j <= i && c.parent == Some(output[j].key);
      assert output[j] in multiset(input) && output[j] in input;
      assert Has(input, c.parent.value);
      if j < i {
        assert Before(output, output[j], c);
        ParentPlaced(input, output, c, output[j]);
      }
    }
  }

  lemma SoundIsStored(input: seq<MarketGroup>, output: seq<MarketGroup>, i: nat)
    requires UniqueKeys(input) && UniqueKeys(output) && Permutes(input, output) && Stable(input, output) &&
      SortedByDepth(output, input)
    requires i < |output| && output[i] in input && Sound(input, output[i])
    ensures ParentStored(output, i)
  {
    var c := output[i];
    if c.parent.Some? && c.parent.value != c.key {
      var k :| 0 <= k < |input| && input[k].key == c.parent.value;
      ParentPlaced(input, output, c, input[k]);
      var x, y :| 0 <= x < y < |output| && output[x] == input[k] && output[y] == c;
      assert y == i;
    }
  }

  /** The groups form a forest: some ranking puts every present parent below its children. */
  ghost predicate Forest(input: seq<MarketGroup>, rank: map<int, nat>) {
    forall c :: c in input ==> c.key in rank && (c.parent.Some? && Has(input, c.parent.value) ==>
      c.parent.value in rank && rank[c.parent.value] < rank[c.key])
  }

  lemma {:induction false} ForestWalksEnd(input: seq<MarketGroup>, rank: map<int, nat>, c: MarketGroup)
    requires UniqueKeys(input) && Forest(input, rank) && c in input
    ensures !Endless(c.parent, input)
    decreases rank[c.key]
  {
    if c.parent == None {
      assert Ends(c.parent, input, 0);
    } else if Has(input, c.parent.value) {
      var i :| 0 <= i < |input| && input[i].key == c.parent.value;
      ParentOfRow(input, i);
      ForestWalksEnd(input, rank, input[i]);
      EndlessNext(c.parent, input);
    } else {
      NoParentOfMissing(input, c.parent.value);
      assert Ends(c.parent, input, 1);
    }
  }

  /** In a forest the sort always works: only a parent missing from the file can fail an insert. */
  lemma ForestParentsFirst(input: seq<MarketGroup>, output: seq<MarketGroup>, rank: map<int, nat>)
    requires UniqueKeys(input) && Permutes(input, output) && Stable(input, output) && SortedByDepth(output, input)
    requires Forest(input, rank)
    ensures ParentsFirst(output) <==> forall c :: c in input && c.parent.Some? ==> Has(input, c.parent.value)
  {
    SortedParentsFirst(input, output);
    forall c | c in input
      ensures !Endless(c.parent, input)
    {
      ForestWalksEnd(input, rank, c);
    }
  }

  // ---------------------------------------------------------------- a file that cannot be imported

  const OWN_PARENT := MarketGroup(1, Some(1), "own parent")
  const CHILD := MarketGroup(2, Some(1), "child")

  lemma {:induction false} NeverEnds(n: nat)
    ensures !Ends(Some(1), [CHILD, OWN_PARENT], n)
  {
    if n > 0 {
      var all := [CHILD, OWN_PARENT];
      assert all[1..] == [OWN_PARENT] && ParentOf(all, 1) == Some(1);
      NeverEnds(n - 1);
    }
  }

  /** A child of a group that is its own parent, listed before it: no stable sort by depth puts the parent first. */
  lemma ChildOfOwnParentComesFirst(output: seq<MarketGroup>)
    requires Permutes([CHILD, OWN_PARENT], output) && Stable([CHILD, OWN_PARENT], output)
    requires SortedByDepth(output, [CHILD, OWN_PARENT])
    ensures !ParentsFirst(output)
  {
    var input := [CHILD, OWN_PARENT];
    forall n: nat
      ensures !Ends(CHILD.parent, input, n)
    {
      NeverEnds(n);
    }
    assert input[0] == CHILD && input[1] == OWN_PARENT;
    forall p: MarketGroup | p.key == 1
      ensures !Before(input, p, CHILD)
    {
    }
    assert !Sound(input, CHILD);
    SortedParentsFirst(input, output);
  }

  /** The other way round the same rows can be imported. */
  lemma OwnParentMayComeFirst()
    ensures ParentsFirst([OWN_PARENT, CHILD]) && !ParentsFirst([CHILD, OWN_PARENT])
  {
    var ok := [OWN_PARENT, CHILD];
    assert ok[0] == OWN_PARENT && ok[1] == CHILD;
    assert ParentStored(ok, 0) && ParentStored(ok, 1);
    assert !ParentStored([CHILD, OWN_PARENT], 0);
  }
}

/** Apriori frequent-itemset mining (apriori/apriori.py). The transactions
    are sets of item names; level 1 holds the frequent single items; level
    `k` joins pairs of sets of level `k - 1` into candidates of size `k`,
    counts the transactions that contain each candidate and keeps those whose
    share of the transactions reaches the minimum support. */
module AprioriMining {

  /** A transaction, a candidate or a frequent itemset. */
  type ItemSet = set<string>

  /** No element occurs twice. */
  predicate Distinct<T(==)>(xs: seq<T>) {
    forall i, j | 0 <= i < j < |xs| :: xs[i] != xs[j]
  }

  /** The elements of a sequence. */
  function Elems<T>(xs: seq<T>): set<T> {
    set x | x in xs
  }

  /** Appending an element not yet present keeps the sequence free of
      repeats and adds exactly that element. */
  lemma AppendFresh<T>(xs: seq<T>, x: T)
    requires Distinct(xs) && x !in xs
    ensures Distinct(xs + [x])
    ensures Elems(xs + [x]) == Elems(xs) + {x}
  {
  }

  // ---------------------------------------------------------------------
  // Ordering of item names
  // ---------------------------------------------------------------------

  /** Python's `<` on strings: the first differing code point decides, and a
      proper prefix comes first. Lists of one item compare as their items. */
  predicate StrLess(a: string, b: string)
    decreases |a|
  {
    |b| > 0 && (|a| == 0 || a[0] < b[0] || (a[0] == b[0] && StrLess(a[1..], b[1..])))
  }

  lemma {:induction false} StrLessIrreflexive(a: string)
    ensures !StrLess(a, a)
  {
    if |a| > 0 {
      StrLessIrreflexive(a[1..]);
    }
  }

  lemma {:induction false} StrLessTransitive(a: string, b: string, c: string)
    requires StrLess(a, b) && StrLess(b, c)
    ensures StrLess(a, c)
  {
    if |a| > 0 && a[0] == b[0] && b[0] == c[0] {
      StrLessTransitive(a[1..], b[1..], c[1..]);
    }
  }

  /** Any two different names are ordered one way or the other. */
  lemma {:induction false} StrLessTotal(a: string, b: string)
    requires a != b
    ensures StrLess(a, b) || StrLess(b, a)
  {
    if |a| > 0 && |b| > 0 && a[0] == b[0] {
      assert a == [a[0]] + a[1..] && b == [b[0]] + b[1..];
      StrLessTotal(a[1..], b[1..]);
    }
  }

  /** Every earlier name is smaller than every later one. */
  predicate StrictlySorted(xs: seq<string>) {
    forall i, j | 0 <= i < j < |xs| :: StrLess(xs[i], xs[j])
  }

  // ---------------------------------------------------------------------
  // Items, counts and supports
  // ---------------------------------------------------------------------

  /** Every item occurring in some transaction. */
  function Items(ts: seq<ItemSet>): (u: set<string>)
    ensures forall i | 0 <= i < |ts| :: ts[i] <= u
  {
    if |ts| == 0 then {} else Items(ts[..|ts| - 1]) + ts[|ts| - 1]
  }

  /** An item is among `Items(ts)` exactly when a transaction holds it. */
  lemma {:induction false} ItemsOccur(ts: seq<ItemSet>, x: string)
    ensures x in Items(ts) <==> exists i :: 0 <= i < |ts| && x in ts[i]
  {
    if |ts| > 0 {
      var front := ts[..|ts| - 1];
      ItemsOccur(front, x);
      if x in Items(front) {
        var i :| 0 <= i < |front| && x in front[i];
        assert x in ts[i];
      }
    }
  }

  /** The singleton of each item: the candidates of level 1. */
  function Singletons(u: set<string>): set<ItemSet> {
    set x | x in u :: {x}
  }

  /** How many transactions contain candidate `c`: `counts[c]` of
      `__filter_ck`. */
  function Count(ts: seq<ItemSet>, c: ItemSet): (n: nat)
    ensures n <= |ts|
  {
    if |ts| == 0 then 0 else Count(ts[..|ts| - 1], c) + (if c <= ts[|ts| - 1] then 1 else 0)
  }

  /** The support recorded for `c`: the share of the transactions containing
      it. The source divides only for candidates it counted, so only with at
      least one transaction. */
  function Support(ts: seq<ItemSet>, c: ItemSet): (r: real)
    ensures 0.0 <= r <= 1.0
    ensures r * (|ts| as real) == Count(ts, c) as real
  {
    if |ts| == 0 then 0.0 else Count(ts, c) as real / |ts| as real
  }

  /** A candidate is counted only when a transaction contains it, so its
      items occur in the transactions. */
  lemma {:induction false} CountedWithinItems(ts: seq<ItemSet>, c: ItemSet)
    requires Count(ts, c) > 0
    ensures c <= Items(ts)
    ensures exists i :: 0 <= i < |ts| && c <= ts[i]
  {
    var front := ts[..|ts| - 1];
    if Count(front, c) > 0 {
      CountedWithinItems(front, c);
      var i :| 0 <= i < |front| && c <= front[i];
      assert c <= ts[i];
    } else {
      assert c <= ts[|ts| - 1];
    }
  }

  /** Every recorded support lies in (0, 1]. */
  lemma SupportInUnit(ts: seq<ItemSet>, c: ItemSet)
    requires Count(ts, c) > 0
    ensures 0.0 < Support(ts, c) <= 1.0
  {
    var n, m := Count(ts, c) as real, |ts| as real;
    assert n <= m;
    assert n / m <= 1.0 by {
      assert n / m * m == n;
    }
  }

  /** A superset is contained in no more transactions than its subsets. */
  lemma {:induction false} CountAntiMonotone(ts: seq<ItemSet>, c: ItemSet, d: ItemSet)
    requires c <= d
    ensures Count(ts, d) <= Count(ts, c)
  {
    if |ts| > 0 {
      CountAntiMonotone(ts[..|ts| - 1], c, d);
    }
  }

  lemma DivideMonotone(n: real, m: real, l: real)
    requires 0.0 < l && n <= m
    ensures n / l <= m / l
  {
    var q := 1.0 / l;
    assert q > 0.0;
    assert n / l == n * q && m / l == m * q;
    assert (m - n) * q >= 0.0;
  }

  /** The downward closure Apriori rests on: every subset of a frequent set
      is frequent. */
  lemma FrequentSubsets(ts: seq<ItemSet>, ms: real, c: ItemSet, d: ItemSet)
    requires c <= d && Count(ts, d) > 0 && Support(ts, d) >= ms
    ensures Count(ts, c) > 0 && Support(ts, c) >= ms
  {
    CountAntiMonotone(ts, c, d);
    DivideMonotone(Count(ts, d) as real, Count(ts, c) as real, |ts| as real);
  }

  /** The candidates that a filter records a support for. */
  function Counted(ts: seq<ItemSet>, cands: set<ItemSet>): (r: set<ItemSet>)
    ensures r <= cands
    ensures forall c <- r :: c <= Items(ts)
  {
    var r := set c | c in cands && Count(ts, c) > 0;
    assert forall c <- r :: c <= Items(ts) by {
      forall c <- r ensures c <= Items(ts) {
        CountedWithinItems(ts, c);
      }
    }
    r
  }

  /** The candidates a filter keeps: counted, with support at least `ms`. */
  function Frequent(ts: seq<ItemSet>, ms: real, cands: set<ItemSet>): (r: set<ItemSet>)
    ensures r <= Counted(ts, cands)
    ensures ms <= 0.0 ==> r == Counted(ts, cands)
  {
    set c | c in cands && Count(ts, c) > 0 && Support(ts, c) >= ms
  }

  // ---------------------------------------------------------------------
  // Candidates of the next level
  // ---------------------------------------------------------------------

  /** The candidates `__create_ck` builds from level `lk`: every union of two
      different sets of `lk` that has exactly `k` items. */
  function Candidates(lk: seq<ItemSet>, k: int): set<ItemSet> {
    JoinedFrom(lk, lk, k)
  }

  /** The unions of `k` items of `a` with each set of `right` other than
      `a`, in the order of `right`. */
  function JoinRow(a: ItemSet, right: seq<ItemSet>, k: int): (r: set<ItemSet>)
  {
    if right == [] then {}
    else
      var b := right[|right| - 1];
      JoinRow(a, right[..|right| - 1], k) + (if |a + b| == k && a != b then {a + b} else {})
  }

  /** The rows of `JoinRow` for each set of `left` against all of `right`. */
  function JoinedFrom(left: seq<ItemSet>, right: seq<ItemSet>, k: int): (r: set<ItemSet>)
  {
    if left == [] then {}
    else JoinedFrom(left[..|left| - 1], right, k) + JoinRow(left[|left| - 1], right, k)
  }

  lemma {:induction false} JoinRowMembers(a: ItemSet, right: seq<ItemSet>, k: int, c: ItemSet)
    ensures c in JoinRow(a, right, k) <==> exists b :: b in right && a != b && |a + b| == k && c == a + b
  {
    if right != [] {
      var init, b := right[..|right| - 1], right[|right| - 1];
      assert forall x :: x in right <==> x in init || x == b by {
        assert right == init + [b];
      }
      JoinRowMembers(a, init, k, c);
      if c in JoinRow(a, init, k) {
        var x :| x in init && a != x && |a + x| == k && c == a + x;
        assert x in right;
      } else if c in JoinRow(a, right, k) {
        assert b in right && a != b && |a + b| == k && c == a + b;
      }
    }
  }

  /** A set is joined from `left` and `right` exactly when it is the union,
      of `k` items, of a set of `left` and a different set of `right`. */
  lemma {:induction false} JoinedMembers(left: seq<ItemSet>, right: seq<ItemSet>, k: int, c: ItemSet)
    ensures c in JoinedFrom(left, right, k)
        <==> exists a, b :: a in left && b in right && a != b && |a + b| == k && c == a + b
  {
    if left != [] {
      var init, a := left[..|left| - 1], left[|left| - 1];
      assert left == init + [a];
      JoinedMembers(init, right, k, c);
      JoinRowMembers(a, right, k, c);
      if c in JoinedFrom(init, right, k) {
        var x, y :| x in init && y in right && x != y && |x + y| == k && c == x + y;
        assert x in left;
      }
      if c in JoinRow(a, right, k) {
        var y :| y in right && a != y && |a + y| == k && c == a + y;
        assert a in left;
      }
      if exists x, y :: x in left && y in right && x != y && |x + y| == k && c == x + y {
        var x, y :| x in left && y in right && x != y && |x + y| == k && c == x + y;
        if x != a {
          assert x in init;
        }
      }
    }
  }

  /** Every candidate has `k` items and contains a set of `lk`, which is
      contained in at least as many transactions. */
  lemma CandidateShape(ts: seq<ItemSet>, lk: seq<ItemSet>, k: int, c: ItemSet)
    requires c in Candidates(lk, k)
    ensures |c| == k
    ensures exists a, b :: a in lk && b in lk && a != b && c == a + b
    ensures exists a :: a in lk && a <= c && Count(ts, c) <= Count(ts, a)
  {
    JoinedMembers(lk, lk, k, c);
    var a, b :| a in lk && b in lk && a != b && |a + b| == k && c == a + b;
    CountAntiMonotone(ts, a, c);
  }

  lemma SubsetSize(a: set<string>, b: set<string>)
    requires a <= b
    ensures |a| <= |b|
  {
    assert b == a + (b - a);
  }

  /** Candidates built from sets of the items in `u` lie within `u`, so there
      are none of more than `|u|` items. */
  lemma CandidatesWithin(lk: seq<ItemSet>, k: int, u: set<string>)
    requires forall a | a in lk :: a <= u
    ensures forall c | c in Candidates(lk, k) :: c <= u
    ensures Candidates(lk, k) != {} ==> k <= |u|
  {
    forall c | c in Candidates(lk, k)
      ensures c <= u
    {
      JoinedMembers(lk, lk, k, c);
    }
    if Candidates(lk, k) != {} {
      var c :| c in Candidates(lk, k);
      CandidateShape([], lk, k, c);
      SubsetSize(c, u);
    }
  }

  // ---------------------------------------------------------------------
  // What a run leaves behind
  // ---------------------------------------------------------------------

  /** Each list of `ls` names the items of the set at the same position of
      `lk`, each item once: `[list(x) for x in lk]`. */
  predicate ListsOf(ls: seq<seq<string>>, lk: seq<ItemSet>) {
    |ls| == |lk| && forall j | 0 <= j < |ls| :: Distinct(ls[j]) && Elems(ls[j]) == lk[j]
  }

  /** The levels a run appends after the levels `base` it found: first the
      frequent single items, then, for as long as the run went on, the
      frequent candidates joined from the level `k - 2` places into
      `fi` (the level before, when `base` is empty), each joining non-empty. */
  /** The candidates joined for level `i` of `fi` when the levels before
      the run numbered `n0`: those from the level `i - n0 - 1`, of
      `i - n0 + 1` items. */
  ghost function Joined(fi: seq<seq<ItemSet>>, n0: nat, i: int): set<ItemSet>
    requires n0 < i <= |fi| + n0
  {
    Candidates(fi[i - n0 - 1], i - n0 + 1)
  }

  ghost predicate LevelsFollow(ts: seq<ItemSet>, ms: real, base: seq<seq<ItemSet>>, fi: seq<seq<ItemSet>>) {
    |fi| > |base| && fi[..|base|] == base &&
    Elems(fi[|base|]) == Frequent(ts, ms, Singletons(Items(ts))) &&
    (forall i | |base| < i < |fi| ::
       Joined(fi, |base|, i) != {} && Elems(fi[i]) == Frequent(ts, ms, Joined(fi, |base|, i))) &&
    (forall i | |base| <= i < |fi| :: Distinct(fi[i]))
  }

  /** Why the level loop ended with level `k - 1` the last one: the level it
      would join was empty, or the joining gave no candidate. */
  ghost predicate Stopped(base: seq<seq<ItemSet>>, fi: seq<seq<ItemSet>>)
    requires |fi| > |base|
  {
    var k := |fi| - |base| + 1;
    |fi[k - 2]| == 0 || Candidates(fi[k - 2], k) == {}
  }

  /** The supports a run records: those of every counted candidate of the
      levels it built, as shares of the transactions. */
  ghost predicate SupportsRecorded(ts: seq<ItemSet>, base: seq<seq<ItemSet>>, fi: seq<seq<ItemSet>>, sup: map<ItemSet, real>) {
    (forall c :: c in sup <==>
       Count(ts, c) > 0 &&
       (c in Singletons(Items(ts)) ||
        exists i | |base| < i < |fi| :: c in Joined(fi, |base|, i))) &&
    (forall c | c in sup :: sup[c] == Support(ts, c))
  }

  /** Every set of every level lies within the items `u`. */
  ghost predicate LevelsWithin(fi: seq<seq<ItemSet>>, u: set<string>) {
    forall i, j | 0 <= i < |fi| && 0 <= j < |fi[i]| :: fi[i][j] <= u
  }

  /** What `__filter_ck` returns for the candidates `cands`. */
  ghost predicate Filtered(ts: seq<ItemSet>, ms: real, cands: set<ItemSet>, lk: seq<ItemSet>, supports: map<ItemSet, real>) {
    supports.Keys == Counted(ts, cands) &&
    (forall c | c in supports :: supports[c] == Support(ts, c)) &&
    (forall c :: c in lk <==> c in supports && supports[c] >= ms) &&
    Distinct(lk)
  }

  /** A filter keeps exactly the frequent candidates, all within the items
      of the transactions. */
  lemma FilteredFrequent(ts: seq<ItemSet>, ms: real, cands: set<ItemSet>, lk: seq<ItemSet>, supports: map<ItemSet, real>)
    requires Filtered(ts, ms, cands, lk, supports)
    ensures Elems(lk) == Frequent(ts, ms, cands)
    ensures forall c | c in lk :: c <= Items(ts)
  {
    forall c | c in lk
      ensures c <= Items(ts)
    {
      CountedWithinItems(ts, c);
    }
  }

  /** The first step of a run: level 1 after `base`. */
  lemma StartLevels(ts: seq<ItemSet>, ms: real, base: seq<seq<ItemSet>>, l1: seq<ItemSet>, supports: map<ItemSet, real>)
    requires LevelsWithin(base, Items(ts))
    requires Filtered(ts, ms, Singletons(Items(ts)), l1, supports)
    ensures LevelsFollow(ts, ms, base, base + [l1])
    ensures SupportsRecorded(ts, base, base + [l1], supports)
    ensures LevelsWithin(base + [l1], Items(ts))
  {
    FilteredFrequent(ts, ms, Singletons(Items(ts)), l1, supports);
    var fi := base + [l1];
    assert fi[..|base|] == base;
    forall i, j | 0 <= i < |fi| && 0 <= j < |fi[i]|
      ensures fi[i][j] <= Items(ts)
    {
      if i == |base| {
        assert fi[i][j] in l1;
      }
    }
  }

  /** One more level of a run. */
  lemma ExtendLevels(ts: seq<ItemSet>, ms: real, base: seq<seq<ItemSet>>, fi: seq<seq<ItemSet>>,
                     lk: seq<ItemSet>, supportK: map<ItemSet, real>)
    requires LevelsFollow(ts, ms, base, fi)
    requires Joined(fi + [lk], |base|, |fi|) != {}
    requires Filtered(ts, ms, Joined(fi + [lk], |base|, |fi|), lk, supportK)
    ensures LevelsFollow(ts, ms, base, fi + [lk])
  {
    var n0, next := |base|, fi + [lk];
    FilteredFrequent(ts, ms, Joined(next, n0, |fi|), lk, supportK);
    assert next[..|fi|] == fi;
    assert next[..n0] == base;
    forall i | n0 < i < |fi|
      ensures Joined(next, n0, i) == Joined(fi, n0, i)
    {
    }
  }

  /** The new level lies within the items too. */
  lemma ExtendWithin(ts: seq<ItemSet>, ms: real, cands: set<ItemSet>, fi: seq<seq<ItemSet>>,
                     lk: seq<ItemSet>, supportK: map<ItemSet, real>)
    requires LevelsWithin(fi, Items(ts))
    requires Filtered(ts, ms, cands, lk, supportK)
    ensures LevelsWithin(fi + [lk], Items(ts))
  {
    FilteredFrequent(ts, ms, cands, lk, supportK);
    var next := fi + [lk];
    forall i, j | 0 <= i < |next| && 0 <= j < |next[i]|
      ensures next[i][j] <= Items(ts)
    {
      if i == |fi| {
        assert next[i][j] in lk;
      }
    }
  }

  /** The supports of one more level join those recorded. */
  lemma ExtendSupports(ts: seq<ItemSet>, ms: real, base: seq<seq<ItemSet>>, fi: seq<seq<ItemSet>>,
                       sup: map<ItemSet, real>, lk: seq<ItemSet>, supportK: map<ItemSet, real>)
    requires |fi| > |base| && SupportsRecorded(ts, base, fi, sup)
    requires Filtered(ts, ms, Joined(fi + [lk], |base|, |fi|), lk, supportK)
    ensures SupportsRecorded(ts, base, fi + [lk], sup + supportK)
  {
    var n0, next := |base|, fi + [lk];
    forall i | n0 < i < |fi|
      ensures Joined(next, n0, i) == Joined(fi, n0, i)
    {
    }
    forall c
      ensures c in sup + supportK <==>
        Count(ts, c) > 0 &&
        (c in Singletons(Items(ts)) || exists i | n0 < i < |next| :: c in Joined(next, n0, i))
    {
      if c in supportK {
        assert c in Joined(next, n0, |fi|);
      }
      if exists i | n0 < i < |next| :: c in Joined(next, n0, i) {
        var i :| n0 < i < |next| && c in Joined(next, n0, i);
        if i < |fi| {
          assert c in Joined(fi, n0, i);
        }
      }
    }
  }

  /** A frequent itemset: non-empty, contained in some transaction, with
      support at least `ms`. */
  ghost predicate IsFrequent(ts: seq<ItemSet>, ms: real, c: ItemSet) {
    c != {} && Count(ts, c) > 0 && Support(ts, c) >= ms
  }

  /** Every set of a level a run built is frequent, with one item more than
      the level before it, and its support lies in (0, 1]. */
  lemma MinedAreFrequent(ts: seq<ItemSet>, ms: real, base: seq<seq<ItemSet>>, fi: seq<seq<ItemSet>>, i: int, c: ItemSet)
    requires LevelsFollow(ts, ms, base, fi)
    requires |base| <= i < |fi| && c in fi[i]
    ensures IsFrequent(ts, ms, c) && |c| == i - |base| + 1
    ensures 0.0 < Support(ts, c) <= 1.0
  {
    assert c in Elems(fi[i]);
    if i == |base| {
      var x :| x in Items(ts) && c == {x};
    } else {
      CandidateShape(ts, fi[i - |base| - 1], i - |base| + 1, c);
    }
    SupportInUnit(ts, c);
  }

  lemma SingleItem(s: ItemSet)
    requires |s| == 1
    ensures exists x :: s == {x}
  {
    var x :| x in s;
    var rest := s - {x};
    assert s == rest + {x} && x !in rest;
    assert |rest| == 0;
  }

  /** A set of at least two items is the union of two different subsets of
      one item less. */
  lemma TwoHalves(s: ItemSet) returns (a: ItemSet, b: ItemSet)
    requires |s| >= 2
    ensures a <= s && b <= s && a != b && a + b == s
    ensures |a| == |s| - 1 && |b| == |s| - 1
  {
    var x :| x in s;
    assert s == (s - {x}) + {x};
    var y :| y in s - {x};
    a, b := s - {x}, s - {y};
    assert x in b && x !in a;
    assert s == b + {y};
  }

  /** The level a run built from level `i - 1`. */
  lemma LevelJoined(ts: seq<ItemSet>, ms: real, fi: seq<seq<ItemSet>>, i: int)
    requires LevelsFollow(ts, ms, [], fi) && 0 < i < |fi|
    ensures Elems(fi[i]) == Frequent(ts, ms, Candidates(fi[i - 1], i + 1))
  {
    assert Joined(fi, 0, i) == Candidates(fi[i - 1], i + 1);
  }

  /** Every frequent itemset of a run that started with no levels is found,
      at the level of its size. */
  lemma {:induction false} FrequentFound(ts: seq<ItemSet>, ms: real, fi: seq<seq<ItemSet>>, s: ItemSet)
    requires LevelsFollow(ts, ms, [], fi) && Stopped([], fi)
    requires IsFrequent(ts, ms, s)
    ensures |s| <= |fi| && s in fi[|s| - 1]
    decreases |s|
  {
    if |s| == 1 {
      SingleItem(s);
      var x :| s == {x};
      CountedWithinItems(ts, s);
      assert s in Frequent(ts, ms, Singletons(Items(ts)));
      assert s in Elems(fi[0]);
    } else {
      var a, b := TwoHalves(s);
      FrequentSubsets(ts, ms, a, s);
      FrequentSubsets(ts, ms, b, s);
      FrequentFound(ts, ms, fi, a);
      FrequentFound(ts, ms, fi, b);
      var m := |s|;
      JoinedMembers(fi[m - 2], fi[m - 2], m, s);
      assert s in Candidates(fi[m - 2], m);
      if m - 1 == |fi| {
        assert false;
      }
      LevelJoined(ts, ms, fi, m - 1);
      assert s in Elems(fi[m - 1]);
    }
  }

  /** Level `i` of `fi` holds exactly the frequent itemsets of `i + 1`
      items, and no frequent itemset has more items than there are levels. */
  ghost predicate FindsExactly(ts: seq<ItemSet>, ms: real, fi: seq<seq<ItemSet>>) {
    (forall i, c | 0 <= i < |fi| :: c in fi[i] <==> IsFrequent(ts, ms, c) && |c| == i + 1) &&
    (forall c | IsFrequent(ts, ms, c) :: |c| <= |fi|)
  }

  /** Level `i` of a run with no levels before it holds exactly the
      frequent itemsets of `i + 1` items. */
  lemma LevelExactly(ts: seq<ItemSet>, ms: real, fi: seq<seq<ItemSet>>, i: int, c: ItemSet)
    requires LevelsFollow(ts, ms, [], fi) && Stopped([], fi) && 0 <= i < |fi|
    ensures c in fi[i] <==> IsFrequent(ts, ms, c) && |c| == i + 1
  {
    if c in fi[i] {
      MinedAreFrequent(ts, ms, [], fi, i, c);
    } else if IsFrequent(ts, ms, c) && |c| == i + 1 {
      LevelComplete(ts, ms, fi, i, c);
    }
  }

  lemma LevelComplete(ts: seq<ItemSet>, ms: real, fi: seq<seq<ItemSet>>, i: int, c: ItemSet)
    requires LevelsFollow(ts, ms, [], fi) && Stopped([], fi) && 0 <= i < |fi|
    requires IsFrequent(ts, ms, c) && |c| == i + 1
    ensures c in fi[i]
  {
    FrequentFound(ts, ms, fi, c);
  }

  /** A run that started with no levels finds exactly the frequent
      itemsets: level `i` holds those of `i + 1` items, and none has more
      items than there are levels. */
  lemma MinedExactly(ts: seq<ItemSet>, ms: real, fi: seq<seq<ItemSet>>)
    requires LevelsFollow(ts, ms, [], fi) && Stopped([], fi)
    ensures FindsExactly(ts, ms, fi)
  {
    forall i, c | 0 <= i < |fi|
      ensures c in fi[i] <==> IsFrequent(ts, ms, c) && |c| == i + 1
    {
      LevelExactly(ts, ms, fi, i, c);
    }
    forall c | IsFrequent(ts, ms, c)
      ensures |c| <= |fi|
    {
      FrequentFound(ts, ms, fi, c);
    }
  }

  /** `rs` lists the levels of `fi` from `from` on. */
  predicate ResultsListed(fi: seq<seq<ItemSet>>, from: nat, rs: seq<seq<seq<string>>>) {
    from <= |fi| && |rs| == |fi| - from &&
    forall i | 0 <= i < |rs| :: ListsOf(rs[i], fi[from + i])
  }

  lemma ExtendResults(fi: seq<seq<ItemSet>>, from: nat, rs: seq<seq<seq<string>>>, r0: nat, lists: seq<seq<string>>)
    requires |fi| > 0 && r0 <= |rs| && ResultsListed(fi[..|fi| - 1], from, rs[r0..])
    requires ListsOf(lists, fi[|fi| - 1])
    ensures (rs + [lists])[..r0] == rs[..r0]
    ensures ResultsListed(fi, from, (rs + [lists])[r0..])
  {
    assert (rs + [lists])[r0..] == rs[r0..] + [lists];
  }

  /** What the level loop of `run` keeps, on values: `base` were the
      levels and `before` the item lists before the run, level `k - 1` is
      the last one, and `n` is the number of transactions. */
  ghost predicate Progressing(ts: seq<ItemSet>, ms: real, n: nat, base: seq<seq<ItemSet>>,
                              before: seq<seq<seq<string>>>, k: int, fi: seq<seq<ItemSet>>,
                              rs: seq<seq<seq<string>>>, sup: map<ItemSet, real>) {
    2 <= k <= |Items(ts)| + 2 && |fi| == |base| + k - 1 &&
    n == |ts| && LevelsWithin(fi, Items(ts)) &&
    LevelsFollow(ts, ms, base, fi) &&
    SupportsRecorded(ts, base, fi, sup) &&
    |rs| == |before| + k - 2 && rs[..|before|] == before &&
    ResultsListed(fi, |base| + 1, rs[|before|..])
  }

  /** A pass that finds candidates appends the filtered level, its item
      lists and its supports, and the loop goes on with `k + 1`. */
  lemma Grow(ts: seq<ItemSet>, ms: real, n: nat, base: seq<seq<ItemSet>>, before: seq<seq<seq<string>>>,
             k: int, fi: seq<seq<ItemSet>>, rs: seq<seq<seq<string>>>, sup: map<ItemSet, real>,
             ck: set<ItemSet>, lk: seq<ItemSet>, supportK: map<ItemSet, real>, lists: seq<seq<string>>)
    requires Progressing(ts, ms, n, base, before, k, fi, rs, sup)
    requires ck == Candidates(fi[k - 2], k) && ck != {}
    requires Filtered(ts, ms, ck, lk, supportK) && ListsOf(lists, lk)
    ensures Progressing(ts, ms, n, base, before, k + 1, fi + [lk], rs + [lists], sup + supportK)
  {
    CandidatesWithin(fi[k - 2], k, Items(ts));
    assert Joined(fi + [lk], |base|, |fi|) == ck;
    ExtendLevels(ts, ms, base, fi, lk, supportK);
    ExtendWithin(ts, ms, ck, fi, lk, supportK);
    ExtendSupports(ts, ms, base, fi, sup, lk, supportK);
    ExtendResults(fi + [lk], |base| + 1, rs, |before|, lists);
  }

  /** `Apriori`: the transactions, the minimum support, and what `run`
      records: the frequent itemsets level by level, the same levels from the
      second on as lists of item lists, and the support of every counted
      candidate. */
  class Apriori {
    const transactions: seq<ItemSet>
    const numTransactions: nat
    const minSupport: real
    var frequentItems: seq<seq<ItemSet>>
    var results: seq<seq<seq<string>>>
    var frequentItemsSupport: map<ItemSet, real>

    /** `numTransactions` counts the transactions, and every frequent
        itemset recorded lies within the items of the transactions. */
    ghost predicate Valid()
      reads this
    {
      numTransactions == |transactions| && LevelsWithin(frequentItems, Items(transactions))
    }

    constructor (transactions: seq<ItemSet>, minSupport: real)
      ensures this.transactions == transactions && this.minSupport == minSupport
      ensures numTransactions == |transactions|
      ensures frequentItems == [] && results == [] && frequentItemsSupport == map[]
      ensures Valid()
    {
      this.transactions := transactions;
      numTransactions := |transactions|;
      this.minSupport := minSupport;
      frequentItems := [];
      results := [];
      frequentItemsSupport := map[];
    }

    /** The first loop of `__create_c1`: every item of every transaction, in
        order of first occurrence, each once. */
    method CollectItems() returns (items: seq<string>)
      ensures Distinct(items)
      ensures Elems(items) == Items(transactions)
    {
      items := [];
      for t := 0 to |transactions|
        invariant Distinct(items)
        invariant Elems(items) == Items(transactions[..t])
      {
        assert transactions[..t + 1][..t] == transactions[..t];
        items := AppendNew(items, transactions[t]);
      }
      assert transactions[..|transactions|] == transactions;
    }

    /** `__create_c1`: the singleton of every item of the transactions, once
        each, in ascending order of the items. */
    method CreateC1() returns (c1: seq<ItemSet>)
      ensures forall i | 0 <= i < |c1| :: |c1[i]| == 1 && c1[i] <= Items(transactions)
      ensures Elems(c1) == Singletons(Items(transactions))
      ensures forall i, j | 0 <= i < j < |c1| :: StrLess(TheItem(c1[i]), TheItem(c1[j]))
    {
      var items := CollectItems();
      var sorted := SortItems(items);
      c1 := seq(|sorted|, i requires 0 <= i < |sorted| => {sorted[i]});
      forall i | 0 <= i < |c1|
        ensures TheItem(c1[i]) == sorted[i]
      {
        assert c1[i] == {sorted[i]};
      }
      assert Elems(c1) == Singletons(Elems(sorted));
    }

    /** `__filter_ck`: the candidates of `ck` some transaction contains,
        with their supports, and those of them whose support reaches the
        minimum support. */
    method FilterCk(ck: seq<ItemSet>) returns (lk: seq<ItemSet>, supports: map<ItemSet, real>)
      requires numTransactions == |transactions| && Distinct(ck)
      ensures supports.Keys == Counted(transactions, Elems(ck))
      ensures forall c | c in supports :: supports[c] == Support(transactions, c)
      ensures forall c :: c in lk <==> c in supports && supports[c] >= minSupport
      ensures Distinct(lk)
    {
      var counts := CountCandidates(ck);
      supports := map[];
      lk := [];
      var keys := counts.Keys;
      while keys != {}
        invariant keys <= counts.Keys
        invariant forall c :: c in supports <==> c in counts && c !in keys
        invariant forall c | c in supports :: supports[c] == Support(transactions, c)
        invariant forall c :: c in lk <==> c in supports && supports[c] >= minSupport
        invariant Distinct(lk)
        decreases |keys|
      {
        var key :| key in keys;
        assert key in Counted(transactions, Elems(ck));
        var support := counts[key] as real / numTransactions as real;
        assert support == Support(transactions, key);
        assert key !in supports && key !in lk;
        if support >= minSupport {
          AppendFresh(lk, key);
          lk := lk + [key];
        }
        supports := supports[key := support];
        keys := keys - {key};
      }
      assert supports.Keys == counts.Keys;
    }

    /** The counting loops of `__filter_ck`: for each candidate some
        transaction contains, the number of transactions containing it. */
    method CountCandidates(ck: seq<ItemSet>) returns (counts: map<ItemSet, nat>)
      requires Distinct(ck)
      ensures counts.Keys == Counted(transactions, Elems(ck))
      ensures forall c | c in counts :: counts[c] == Count(transactions, c)
    {
      counts := map[];
      for t := 0 to |transactions|
        invariant counts.Keys == Counted(transactions[..t], Elems(ck))
        invariant forall c | c in counts :: counts[c] == Count(transactions[..t], c)
      {
        assert transactions[..t + 1][..t] == transactions[..t];
        counts := CountIn(counts, ck, transactions[t]);
      }
      assert transactions[..|transactions|] == transactions;
    }

    /** `__create_ck`: the unions of exactly `k` items of two different sets
        of `lk`. */
    static method CreateCk(lk: seq<ItemSet>, k: int) returns (ck: set<ItemSet>)
      ensures ck == Candidates(lk, k)
    {
      ck := {};
      for i := 0 to |lk|
        invariant ck == JoinedFrom(lk[..i], lk, k)
      {
        var a := lk[i];
        for j := 0 to |lk|
          invariant ck == JoinedFrom(lk[..i], lk, k) + JoinRow(a, lk[..j], k)
        {
          var b := lk[j];
          var union := a + b;
          if |union| == k && a != b {
            ck := ck + {union};
          }
          assert lk[..j + 1][..j] == lk[..j];
        }
        assert lk[..|lk|] == lk;
        assert lk[..i + 1][..i] == lk[..i];
      }
      assert lk[..|lk|] == lk;
    }

    /** What the level loop of `run` keeps: `base` were the levels before
        the run, `before` the item lists, and level `k - 1` is the last. */
    ghost predicate Progress(base: seq<seq<ItemSet>>, before: seq<seq<seq<string>>>, k: int)
      reads this
    {
      Progressing(transactions, minSupport, numTransactions, base, before, k,
                  frequentItems, results, frequentItemsSupport)
    }

    /** One pass of the level loop of `run`: joins the last level into the
        candidates of `k` items; when there are some, filters them and
        appends the new level, its item lists and its supports, and
        otherwise changes nothing and the run has stopped. */
    method NextLevel(k: int, ghost base: seq<seq<ItemSet>>, ghost before: seq<seq<seq<string>>>) returns (grown: bool)
      requires Progress(base, before, k) && |frequentItems[k - 2]| > 0
      modifies this
      ensures grown ==> Progress(base, before, k + 1)
      ensures !grown ==> Progress(base, before, k) && Stopped(base, frequentItems)
    {
      var ck := CreateCk(frequentItems[k - 2], k);
      if ck == {} {
        return false;
      }
      var candidates := SetToSeq(ck);
      var lk, supportK := FilterCk(candidates);
      var lists := ToLists(lk);
      Grow(transactions, minSupport, numTransactions, base, before, k, frequentItems, results,
           frequentItemsSupport, ck, lk, supportK, lists);
      frequentItemsSupport := frequentItemsSupport + supportK;
      frequentItems := frequentItems + [lk];
      results := results + [lists];
      return true;
    }

    /** `run`: appends level 1 and then level after level while the last
        one is non-empty and its joining gives candidates; `results` gets
        every level from the second on as item lists; the supports are those
        of this run's candidates. */
    method Run()
      requires Valid()
      modifies this
      ensures Valid()
      ensures LevelsFollow(transactions, minSupport, old(frequentItems), frequentItems)
      ensures Stopped(old(frequentItems), frequentItems)
      ensures SupportsRecorded(transactions, old(frequentItems), frequentItems, frequentItemsSupport)
      ensures |results| >= |old(results)| && results[..|old(results)|] == old(results)
      ensures ResultsListed(frequentItems, |old(frequentItems)| + 1, results[|old(results)|..])
      ensures old(frequentItems) == [] ==> FindsExactly(transactions, minSupport, frequentItems)
    {
      ghost var base := frequentItems;
      ghost var before := results;
      ghost var u := Items(transactions);
      var c1 := CreateC1();
      SingletonsDistinct(c1);
      var l1, supports := FilterCk(c1);
      StartLevels(transactions, minSupport, frequentItems, l1, supports);
      frequentItems := frequentItems + [l1];
      frequentItemsSupport := supports;
      assert results[|before|..] == [];
      var k := 2;
      while |frequentItems[k - 2]| > 0
        invariant Progress(base, before, k)
        decreases |u| + 2 - k
      {
        var grown := NextLevel(k, base, before);
        if !grown {
          break;
        }
        k := k + 1;
      }
      assert Stopped(base, frequentItems);
      if base == [] {
        MinedExactly(transactions, minSupport, frequentItems);
      }
    }
  }

  /** The inner counting loop of `__filter_ck` for one transaction `tr`:
      one more for every candidate `tr` contains. */
  method CountIn(counts: map<ItemSet, nat>, ck: seq<ItemSet>, tr: ItemSet) returns (r: map<ItemSet, nat>)
    requires Distinct(ck)
    ensures r.Keys == counts.Keys + set c | c in ck && c <= tr
    ensures forall c | c in r :: r[c] == (if c in counts then counts[c] else 0) + (if c in ck && c <= tr then 1 else 0)
  {
    r := counts;
    for j := 0 to |ck|
      invariant r.Keys == counts.Keys + set c | c in ck[..j] && c <= tr
      invariant forall c | c in r :: r[c] == (if c in counts then counts[c] else 0) + (if c in ck[..j] && c <= tr then 1 else 0)
    {
      var candidate := ck[j];
      assert candidate !in ck[..j];
      if candidate <= tr {
        if candidate !in r {
          r := r[candidate := 1];
        } else {
          r := r[candidate := r[candidate] + 1];
        }
      }
      assert ck[..j + 1] == ck[..j] + [candidate];
    }
    assert ck[..|ck|] == ck;
  }

  /** Singletons of ascending items differ. */
  lemma SingletonsDistinct(c1: seq<ItemSet>)
    requires forall i | 0 <= i < |c1| :: |c1[i]| == 1
    requires forall i, j | 0 <= i < j < |c1| :: StrLess(TheItem(c1[i]), TheItem(c1[j]))
    ensures Distinct(c1)
  {
    forall i, j | 0 <= i < j < |c1|
      ensures c1[i] != c1[j]
    {
      StrLessIrreflexive(TheItem(c1[i]));
    }
  }

  /** The iteration over a set: each element once, in some order. */
  method SetToSeq<T>(s: set<T>) returns (xs: seq<T>)
    ensures Distinct(xs) && Elems(xs) == s
  {
    xs := [];
    var rest := s;
    while rest != {}
      invariant rest <= s
      invariant Distinct(xs) && Elems(xs) == s - rest
      decreases |rest|
    {
      var x :| x in rest;
      assert Elems(xs + [x]) == Elems(xs) + {x};
      xs := xs + [x];
      rest := rest - {x};
    }
  }

  /** `[list(x) for x in lk]`. */
  method ToLists(lk: seq<ItemSet>) returns (ls: seq<seq<string>>)
    ensures ListsOf(ls, lk)
  {
    ls := [];
    for i := 0 to |lk|
      invariant ListsOf(ls, lk[..i])
    {
      var l := SetToSeq(lk[i]);
      ls := ls + [l];
    }
    assert lk[..|lk|] == lk;
  }

  /** The item of a set of one item. */
  ghost function TheItem(s: ItemSet): string
    requires s != {}
  {
    var x :| x in s; x
  }

  /** The inner loop of the first loop of `__create_c1`: appends each item
      of `tr` not listed yet. */
  method AppendNew(items: seq<string>, tr: ItemSet) returns (r: seq<string>)
    requires Distinct(items)
    ensures Distinct(r)
    ensures Elems(r) == Elems(items) + tr
  {
    r := items;
    var rest := tr;
    while rest != {}
      invariant rest <= tr
      invariant Distinct(r)
      invariant Elems(r) == Elems(items) + (tr - rest)
      decreases |rest|
    {
      var item :| item in rest;
      var done := Elems(r);
      if item !in r {
        AppendFresh(r, item);
        r := r + [item];
      }
      assert Elems(r) == done + {item};
      rest := rest - {item};
    }
  }

  /** Places `x` among the ascending `s`. */
  method InsertSorted(s: seq<string>, x: string) returns (r: seq<string>)
    requires StrictlySorted(s) && x !in s
    ensures StrictlySorted(r)
    ensures Elems(r) == Elems(s) + {x} && |r| == |s| + 1
  {
    var i := 0;
    while i < |s| && StrLess(s[i], x)
      invariant 0 <= i <= |s|
      invariant forall j | 0 <= j < i :: StrLess(s[j], x)
    {
      i := i + 1;
    }
    forall m | i <= m < |s|
      ensures StrLess(x, s[m])
    {
      StrLessTotal(x, s[i]);
      if m > i {
        StrLessTransitive(x, s[i], s[m]);
      }
    }
    r := s[..i] + [x] + s[i..];
    assert forall k | 0 <= k < i :: r[k] == s[k];
    assert r[i] == x;
    assert forall k | i < k < |r| :: r[k] == s[k - 1];
    forall a, b | 0 <= a < b < |r|
      ensures StrLess(r[a], r[b])
    {
      if b < i || a > i {
        assert StrLess(s[if a < i then a else a - 1], s[if b < i then b else b - 1]);
      } else if a < i && i < b {
        StrLessTransitive(s[a], x, s[b - 1]);
      }
    }
    assert Elems(r) == Elems(s) + {x} by {
      assert s == s[..i] + s[i..];
    }
  }

  /** `c1.sort()`: the distinct items in ascending order. */
  method SortItems(xs: seq<string>) returns (r: seq<string>)
    requires Distinct(xs)
    ensures StrictlySorted(r)
    ensures Elems(r) == Elems(xs) && |r| == |xs|
  {
    r := [];
    for i := 0 to |xs|
      invariant StrictlySorted(r)
      invariant Elems(r) == Elems(xs[..i]) && |r| == i
    {
      assert xs[i] !in Elems(xs[..i]);
      r := InsertSorted(r, xs[i]);
      assert xs[..i + 1] == xs[..i] + [xs[i]];
    }
    assert xs[..|xs|] == xs;
  }
}

/**
 * The `/most-frequent` aggregation: commits counted per author name in a
 * `Map`, flattened into an array and sorted by commit count, most first.
 */
module Ranking {
  import opened Sequences
  import opened OrderedMaps
  import opened Contributors

  /** One element of the `/most-frequent` array: `{name, commits}`. */
  datatype Ranked = Ranked(name: string, commits: nat)

  /** `commit.author.name` of every commit, in listing order. */
  function AuthorNames(data: seq<CommitRecord>): (names: seq<string>)
    ensures |names| == |data|
    ensures forall i :: 0 <= i < |data| ==> names[i] == data[i].authorName
  {
    seq(|data|, i requires 0 <= i < |data| => data[i].authorName)
  }

  // ---------------------------------------------------------------------------
  // Counting: `userCommitCounts`
  // ---------------------------------------------------------------------------

  /** One commit counted: a new name is set to 1, a known one incremented. */
  function Record(counts: OrderedMap<string, nat>, user: string): OrderedMap<string, nat>
  {
    if counts.Has(user) then counts.Set(user, counts.Get(user) + 1) else counts.Set(user, 1)
  }

  /** `userCommitCounts` once `forEach` has visited `names`. */
  function Tally(names: seq<string>): OrderedMap<string, nat>
  {
    if names == [] then Empty() else Record(Tally(names[..|names| - 1]), names[|names| - 1])
  }

  lemma {:induction false} TallyValid(names: seq<string>)
    ensures Tally(names).Valid()
  {
    if names != [] {
      TallyValid(names[..|names| - 1]);
    }
  }

  /** The counting map lists every distinct author name once, in order of first occurrence. */
  lemma {:induction false} TallyOrder(names: seq<string>)
    ensures Tally(names).Valid()
    ensures FirstOccurrenceOrder(Tally(names).keys, names)
  {
    TallyValid(names);
    if names != [] {
      var n := |names| - 1;
      var prefix, user := names[..n], names[n];
      var counts := Tally(prefix);
      assert names == prefix + [user];
      TallyOrder(prefix);
      assert Tally(names) == Record(counts, user);
      SetKeepsFirstOccurrenceOrder(counts, prefix, user, if counts.Has(user) then counts.Get(user) + 1 else 1);
    }
  }

  /** Each name in the counting map is mapped to its number of commits, which is at least one. */
  lemma {:induction false} TallyCounts(names: seq<string>)
    ensures forall i :: 0 <= i < |names| ==> names[i] in Tally(names).entries
    ensures forall k :: k in Tally(names).entries ==>
      k in names && Tally(names).entries[k] == Count(names, k) && Tally(names).entries[k] >= 1
  {
    if names != [] {
      var n := |names| - 1;
      var prefix, user := names[..n], names[n];
      TallyCounts(prefix);
      assert Tally(names) == Record(Tally(prefix), user);
      forall k | k in Tally(names).entries
        ensures k in names && Tally(names).entries[k] == Count(names, k) >= 1
      {
        if k != user {
          var i :| 0 <= i < n && prefix[i] == k;
          assert names[i] == k;
        } else if !Tally(prefix).Has(user) {
          assert user !in prefix;
        }
      }
      forall i | 0 <= i < |names|
        ensures names[i] in Tally(names).entries
      {
        if i < n {
          assert prefix[i] == names[i];
        }
      }
    }
  }

  /**
   * The counting map lists every distinct author name once, in order of
   * first occurrence, and maps it to the number of commits with that name,
   * which is at least one.
   */
  lemma TallySpec(names: seq<string>)
    ensures Tally(names).Valid()
    ensures FirstOccurrenceOrder(Tally(names).keys, names)
    ensures forall k :: k in Tally(names).entries ==>
      k in names && Tally(names).entries[k] == Count(names, k) && Tally(names).entries[k] >= 1
  {
    TallyOrder(names);
    TallyCounts(names);
  }

  /** Counting one more commit adds one to the sum of the counts. */
  lemma CountOneMore(counts: OrderedMap<string, nat>, user: string)
    requires counts.Valid()
    ensures Record(counts, user).Valid() && Sum(Record(counts, user).Values()) == Sum(counts.Values()) + 1
  {
    if counts.Has(user) {
      var p := KeyPosition(counts, user);
      ValuesSetExisting(counts, user, counts.Get(user) + 1, p);
      SumUpdate(counts.Values(), p, counts.Get(user) + 1);
    } else {
      ValuesSetNew(counts, user, 1);
      SumAppend(counts.Values(), 1);
    }
  }

  /** The counts add up to the number of commits. */
  lemma {:induction false} TallySum(names: seq<string>)
    ensures Tally(names).Valid()
    ensures Sum(Tally(names).Values()) == |names|
  {
    if names != [] {
      var n := |names| - 1;
      TallySum(names[..n]);
      CountOneMore(Tally(names[..n]), names[n]);
      assert Tally(names) == Record(Tally(names[..n]), names[n]);
    }
  }

  /** When no name repeats, the counting map lists the names exactly as given. */
  lemma {:induction false} TallyKeysDistinct(names: seq<string>)
    requires NoDuplicates(names)
    ensures Tally(names).keys == names
  {
    if names != [] {
      var n := |names| - 1;
      var prefix := names[..n];
      TallyKeysDistinct(prefix);
      assert names[n] !in prefix;
      TallySpec(prefix);
      assert !Tally(prefix).Has(names[n]);
    }
  }

  /** The counting loop of the `/most-frequent` handler, one step per commit. */
  method CountCommits(data: seq<CommitRecord>) returns (counts: OrderedMap<string, nat>)
    ensures counts == Tally(AuthorNames(data))
  {
    ghost var names := AuthorNames(data);
    counts := Empty();
    var i := 0;
    while i < |data|
      invariant 0 <= i <= |data|
      invariant counts == Tally(names[..i])
    {
      var user := data[i].authorName;
      assert names[..i + 1] == names[..i] + [user];
      assert Tally(names[..i + 1]) == Record(counts, user);
      if counts.Has(user) {
        counts := counts.Set(user, counts.Get(user) + 1);
      } else {
        counts := counts.Set(user, 1);
      }
      i := i + 1;
    }
    assert names[..i] == names;
  }

  // ---------------------------------------------------------------------------
  // Flattening: `mostFrequentUsers` before the sort
  // ---------------------------------------------------------------------------

  /** One `{name, commits}` entry per key of the counting map, in its iteration order. */
  function Entries(counts: OrderedMap<string, nat>): (list: seq<Ranked>)
    requires counts.Valid()
  {
    seq(|counts.keys|, i requires 0 <= i < |counts.keys| =>
      Ranked(counts.keys[i], counts.entries[counts.keys[i]]))
  }

  /** The loop that pushes one entry per counting-map key onto the result array. */
  method ListEntries(counts: OrderedMap<string, nat>) returns (list: seq<Ranked>)
    requires counts.Valid()
    ensures list == Entries(counts)
  {
    list := [];
    var i := 0;
    while i < |counts.keys|
      invariant 0 <= i <= |counts.keys|
      invariant list == Entries(counts)[..i]
    {
      var key := counts.keys[i];
      list := list + [Ranked(key, counts.entries[key])];
      i := i + 1;
    }
  }

  // ---------------------------------------------------------------------------
  // Sorting by commit count, most first, with a stable sort
  // ---------------------------------------------------------------------------

  ghost predicate SortedByCommits(s: seq<Ranked>)
  {
    forall i, j :: 0 <= i < j < |s| ==> s[i].commits >= s[j].commits
  }

  /** The elements of `s` that have `c` commits, in their order in `s`. */
  function WithCommits(s: seq<Ranked>, c: nat): seq<Ranked>
  {
    if s == [] then []
    else
      var n := |s| - 1;
      WithCommits(s[..n], c) + (if s[n].commits == c then [s[n]] else [])
  }

  /**
   * `r` keeps, for every commit count, the relative order that the
   * elements with that count have in `s`: the guarantee of a stable sort.
   */
  ghost predicate Stable(r: seq<Ranked>, s: seq<Ranked>)
  {
    forall c :: WithCommits(r, c) == WithCommits(s, c)
  }

  /**
   * `s` with `x` placed after every element that has at least as many
   * commits: one step of a stable insertion sort, scanning from the right.
   */
  function Insert(s: seq<Ranked>, x: Ranked): (r: seq<Ranked>)
    ensures |r| == |s| + 1
  {
    if s == [] || s[|s| - 1].commits >= x.commits then s + [x]
    else
      var n := |s| - 1;
      Insert(s[..n], x) + [s[n]]
  }

  /** The array sorted by commit count, most first, equal counts kept in their original order. */
  function StableSort(s: seq<Ranked>): (r: seq<Ranked>)
    ensures |r| == |s|
  {
    if s == [] then []
    else
      var n := |s| - 1;
      Insert(StableSort(s[..n]), s[n])
  }

  lemma WithCommitsAppend(s: seq<Ranked>, y: Ranked, c: nat)
    ensures WithCommits(s + [y], c) == WithCommits(s, c) + (if y.commits == c then [y] else [])
  {
    assert (s + [y])[..|s|] == s;
  }

  lemma {:induction false} WithCommitsConcat(a: seq<Ranked>, b: seq<Ranked>, c: nat)
    ensures WithCommits(a + b, c) == WithCommits(a, c) + WithCommits(b, c)
  {
    if b == [] {
      assert a + b == a;
    } else {
      var n := |b| - 1;
      var b', y := b[..n], b[n];
      assert a + b == (a + b') + [y];
      assert b == b' + [y];
      WithCommitsConcat(a, b', c);
      WithCommitsAppend(a + b', y, c);
      WithCommitsAppend(b', y, c);
    }
  }

  lemma {:induction false} WithCommitsMember(s: seq<Ranked>, c: nat, y: Ranked)
    ensures y in WithCommits(s, c) <==> y in s && y.commits == c
  {
    if s != [] {
      var n := |s| - 1;
      WithCommitsMember(s[..n], c, y);
      assert s == s[..n] + [s[n]];
    }
  }

  lemma {:induction false} InsertPermutes(s: seq<Ranked>, x: Ranked)
    ensures multiset(Insert(s, x)) == multiset(s) + multiset{x}
  {
    if s != [] && s[|s| - 1].commits < x.commits {
      var n := |s| - 1;
      InsertPermutes(s[..n], x);
      assert s == s[..n] + [s[n]];
    }
  }

  /** Inserting into elements that all have at least `b` commits an element that has too. */
  lemma {:induction false} InsertBounded(s: seq<Ranked>, x: Ranked, b: nat)
    requires forall i :: 0 <= i < |s| ==> s[i].commits >= b
    requires x.commits >= b
    ensures forall i :: 0 <= i < |Insert(s, x)| ==> Insert(s, x)[i].commits >= b
  {
    if s != [] && s[|s| - 1].commits < x.commits {
      InsertBounded(s[..|s| - 1], x, b);
    }
  }

  lemma {:induction false} InsertSorted(s: seq<Ranked>, x: Ranked)
    requires SortedByCommits(s)
    ensures SortedByCommits(Insert(s, x))
  {
    if s != [] && s[|s| - 1].commits < x.commits {
      var n := |s| - 1;
      InsertSorted(s[..n], x);
      InsertBounded(s[..n], x, s[n].commits);
    }
  }

  lemma {:induction false} InsertWithCommits(s: seq<Ranked>, x: Ranked, c: nat)
    ensures WithCommits(Insert(s, x), c) == WithCommits(s, c) + (if x.commits == c then [x] else [])
  {
    if s == [] || s[|s| - 1].commits >= x.commits {
      WithCommitsAppend(s, x, c);
    } else {
      var n := |s| - 1;
      InsertWithCommits(s[..n], x, c);
      WithCommitsAppend(Insert(s[..n], x), s[n], c);
    }
  }

  /** The insertion sort sorts by commit count, most first, and is stable. */
  lemma {:induction false} StableSortSpec(s: seq<Ranked>)
    ensures SortedByCommits(StableSort(s))
    ensures Stable(StableSort(s), s)
  {
    var r := StableSort(s);
    if s != [] {
      var n := |s| - 1;
      StableSortSpec(s[..n]);
      InsertSorted(StableSort(s[..n]), s[n]);
      forall c ensures WithCommits(r, c) == WithCommits(s, c) {
        InsertWithCommits(StableSort(s[..n]), s[n], c);
      }
    }
  }

  /** The sorted list is a permutation of the array. */
  lemma {:induction false} StableSortPermutes(s: seq<Ranked>)
    ensures multiset(StableSort(s)) == multiset(s)
  {
    if s != [] {
      var n := |s| - 1;
      StableSortPermutes(s[..n]);
      InsertPermutes(StableSort(s[..n]), s[n]);
      assert s == s[..n] + [s[n]];
    }
  }

  /** In a list sorted most first, the last element has the fewest commits. */
  lemma LastIsFewest(r: seq<Ranked>, y: Ranked)
    requires SortedByCommits(r) && y in r
    ensures y.commits >= r[|r| - 1].commits
  {
  }

  /** Two non-empty sorted lists that agree on every count's elements end with equally many commits. */
  lemma SameLastCommits(r1: seq<Ranked>, r2: seq<Ranked>)
    requires SortedByCommits(r1) && SortedByCommits(r2) && r1 != [] && r2 != []
    requires forall c :: WithCommits(r1, c) == WithCommits(r2, c)
    ensures r1[|r1| - 1].commits == r2[|r2| - 1].commits
  {
    var a, b := r1[|r1| - 1], r2[|r2| - 1];
    WithCommitsMember(r1, a.commits, a);
    assert WithCommits(r1, a.commits) == WithCommits(r2, a.commits);
    WithCommitsMember(r2, a.commits, a);
    WithCommitsMember(r2, b.commits, b);
    assert WithCommits(r1, b.commits) == WithCommits(r2, b.commits);
    WithCommitsMember(r1, b.commits, b);
    LastIsFewest(r2, a);
    LastIsFewest(r1, b);
  }

  /** Two lists that agree on every count's elements and end with equally many commits end in the same element. */
  lemma SameLast(r1: seq<Ranked>, r2: seq<Ranked>)
    requires r1 != [] && r2 != [] && r1[|r1| - 1].commits == r2[|r2| - 1].commits
    requires forall c :: WithCommits(r1, c) == WithCommits(r2, c)
    ensures r1[|r1| - 1] == r2[|r2| - 1]
  {
    LastWithCommits(r1);
    LastWithCommits(r2);
    var c := r1[|r1| - 1].commits;
    assert WithCommits(r1, c) == WithCommits(r2, c);
  }

  /** The last element of a list is the last one with its commit count. */
  lemma LastWithCommits(r: seq<Ranked>)
    requires r != []
    ensures var w := WithCommits(r, r[|r| - 1].commits); w != [] && w[|w| - 1] == r[|r| - 1]
  {
    var n := |r| - 1;
    assert WithCommits(r, r[n].commits) == WithCommits(r[..n], r[n].commits) + [r[n]];
  }

  /** Agreeing on every count's elements survives dropping a common last element. */
  lemma DropLast(r1: seq<Ranked>, r2: seq<Ranked>, y: Ranked)
    requires forall c :: WithCommits(r1 + [y], c) == WithCommits(r2 + [y], c)
    ensures forall c :: WithCommits(r1, c) == WithCommits(r2, c)
  {
    forall c ensures WithCommits(r1, c) == WithCommits(r2, c) {
      assert WithCommits(r1 + [y], c) == WithCommits(r2 + [y], c);
      WithCommitsAppend(r1, y, c);
      WithCommitsAppend(r2, y, c);
      var w1, w2 := WithCommits(r1, c), WithCommits(r2, c);
      var tail := if y.commits == c then [y] else [];
      assert (w1 + tail)[..|w1|] == w1;
      assert (w2 + tail)[..|w2|] == w2;
    }
  }

  /** A sorted list that agrees on every count's elements with the empty list is empty. */
  lemma OnlyEmptyMatchesEmpty(r: seq<Ranked>)
    requires forall c :: WithCommits(r, c) == []
    ensures r == []
  {
    if r != [] {
      var y := r[|r| - 1];
      WithCommitsMember(r, y.commits, y);
      assert false;
    }
  }

  /**
   * Sorted by commit count with every count's elements in the same order:
   * two such arrangements are the same list.
   */
  lemma {:induction false} SortedStableUnique(r1: seq<Ranked>, r2: seq<Ranked>)
    requires SortedByCommits(r1) && SortedByCommits(r2)
    requires forall c :: WithCommits(r1, c) == WithCommits(r2, c)
    ensures r1 == r2
  {
    if r1 == [] {
      OnlyEmptyMatchesEmpty(r2);
    } else if r2 == [] {
      OnlyEmptyMatchesEmpty(r1);
    } else {
      var n1, n2 := |r1| - 1, |r2| - 1;
      SameLastCommits(r1, r2);
      SameLast(r1, r2);
      assert r1 == r1[..n1] + [r1[n1]];
      assert r2 == r2[..n2] + [r1[n1]];
      DropLast(r1[..n1], r2[..n2], r1[n1]);
      SortedStableUnique(r1[..n1], r2[..n2]);
    }
  }

  /**
   * Any stable sort by commit count, most first, gives exactly `StableSort`:
   * the list does not depend on which stable algorithm the engine runs.
   */
  lemma StableSortIsUnique(s: seq<Ranked>, r: seq<Ranked>)
    requires SortedByCommits(r) && Stable(r, s)
    ensures r == StableSort(s)
  {
    StableSortSpec(s);
    SortedStableUnique(r, StableSort(s));
  }

  /** One more element with fewer commits than `x` moves to the right of `x`. */
  lemma InsertShift(sorted: seq<Ranked>, j: nat, x: Ranked)
    requires 0 < j <= |sorted| && sorted[j - 1].commits < x.commits
    requires Insert(sorted, x) == Insert(sorted[..j], x) + sorted[j..]
    ensures Insert(sorted, x) == Insert(sorted[..j - 1], x) + sorted[j - 1..]
  {
    assert sorted[..j][..j - 1] == sorted[..j - 1];
    assert sorted[j - 1..] == [sorted[j - 1]] + sorted[j..];
  }

  /** The scan stops at the front or at an element with at least as many commits as `x`. */
  lemma InsertStop(sorted: seq<Ranked>, j: nat, x: Ranked)
    requires j <= |sorted| && (j == 0 || sorted[j - 1].commits >= x.commits)
    requires Insert(sorted, x) == Insert(sorted[..j], x) + sorted[j..]
    ensures Insert(sorted, x) == sorted[..j] + [x] + sorted[j..]
  {
  }

  /** The array during a pass: the shifted prefix, a hole at `j`, the rest of the pass moved right by one. */
  lemma ShiftLeft(sorted: seq<Ranked>, rest: seq<Ranked>, j: nat, hole: Ranked)
    requires 0 < j <= |sorted|
    ensures (sorted[..j] + [hole] + sorted[j..] + rest)[j := sorted[j - 1]]
      == sorted[..j - 1] + [sorted[j - 1]] + sorted[j - 1..] + rest
  {
    assert sorted[..j] == sorted[..j - 1] + [sorted[j - 1]];
    assert sorted[j - 1..] == [sorted[j - 1]] + sorted[j..];
  }

  /** Writing `x` into the hole at `j`. */
  lemma FillHole(sorted: seq<Ranked>, rest: seq<Ranked>, j: nat, hole: Ranked, x: Ranked)
    requires j <= |sorted|
    ensures (sorted[..j] + [hole] + sorted[j..] + rest)[j := x] == sorted[..j] + [x] + sorted[j..] + rest
  {
  }

  /**
   * Shifts right by one every element of the sorted prefix `a[..i]` that has
   * fewer commits than `x`, scanning from the right; `j` is the hole left.
   */
  method MakeRoom(a: array<Ranked>, i: nat, x: Ranked) returns (j: nat)
    requires i < a.Length
    modifies a
    ensures j <= i
    ensures a[..] == old(a[..i])[..j] + [a[j]] + old(a[..i])[j..] + old(a[i + 1..])
    ensures Insert(old(a[..i]), x) == old(a[..i])[..j] + [x] + old(a[..i])[j..]
  {
    ghost var sorted, rest, hole := a[..i], a[i + 1..], a[i];
    assert sorted[..i] == sorted && sorted[i..] == [];
    assert a[..] == sorted[..i] + [hole] + sorted[i..] + rest;
    j := i;
    while j > 0 && a[j - 1].commits < x.commits
      invariant 0 <= j <= i
      invariant a[..] == sorted[..j] + [hole] + sorted[j..] + rest
      invariant Insert(sorted, x) == Insert(sorted[..j], x) + sorted[j..]
    {
      InsertShift(sorted, j, x);
      ShiftLeft(sorted, rest, j, hole);
      a[j] := a[j - 1];
      j := j - 1;
      hole := sorted[j];
    }
    InsertStop(sorted, j, x);
  }

  /** Moves `a[i]` left past every element with fewer commits, as one pass of insertion sort does. */
  method InsertInPlace(a: array<Ranked>, i: nat)
    requires i < a.Length
    modifies a
    ensures a[..] == Insert(old(a[..i]), old(a[i])) + old(a[i + 1..])
  {
    var x := a[i];
    ghost var sorted, rest := a[..i], a[i + 1..];
    var j := MakeRoom(a, i, x);
    FillHole(sorted, rest, j, a[j], x);
    a[j] := x;
  }

  /** Inserting the next element into a sorted prefix extends the sorted prefix by one. */
  lemma SortStep(s: seq<Ranked>, i: nat, t: seq<Ranked>)
    requires i < |s| && t == StableSort(s[..i]) + s[i..]
    ensures Insert(t[..i], t[i]) + t[i + 1..] == StableSort(s[..i + 1]) + s[i + 1..]
  {
    var sorted := StableSort(s[..i]);
    assert |sorted| == i;
    assert s[..i + 1][..i] == s[..i];
    assert s[i..] == [s[i]] + s[i + 1..];
    assert t == sorted + [s[i]] + s[i + 1..];
    assert t[..i] == sorted && t[i] == s[i] && t[i + 1..] == s[i + 1..];
  }

  /** The in-place array sort, with a comparator that puts more commits first. */
  method SortByCommits(a: array<Ranked>)
    modifies a
    ensures a[..] == StableSort(old(a[..]))
  {
    ghost var s := a[..];
    var i := 0;
    while i < a.Length
      invariant 0 <= i <= a.Length
      invariant a[..] == StableSort(s[..i]) + s[i..]
    {
      SortStep(s, i, a[..]);
      InsertInPlace(a, i);
      i := i + 1;
    }
    assert s[..a.Length] == s;
  }

  // ---------------------------------------------------------------------------
  // The `/most-frequent` list
  // ---------------------------------------------------------------------------

  /**
   * The counting map's entries sorted by commit count, most first: the
   * array the handler has once its sort is done. As written, the handler
   * then discards the five-entry slice it takes and returns this whole list.
   */
  function MostFrequent(data: seq<CommitRecord>): seq<Ranked>
  {
    var names := AuthorNames(data);
    TallyValid(names);
    StableSort(Entries(Tally(names)))
  }

  /** The `/most-frequent` handler's count, flatten and in-place sort. */
  method RankContributors(data: seq<CommitRecord>) returns (ranking: seq<Ranked>)
    ensures ranking == MostFrequent(data)
  {
    var counts := CountCommits(data);
    TallyValid(AuthorNames(data));
    var list := ListEntries(counts);
    var a := new Ranked[|list|](i requires 0 <= i < |list| => list[i]);
    assert a[..] == list;
    SortByCommits(a);
    ranking := a[..];
  }

  /** Every element of `s` has a name from `names`, and `s` lists them by first occurrence in `names`. */
  ghost predicate ListedByFirstOccurrence(s: seq<Ranked>, names: seq<string>)
  {
    && (forall i :: 0 <= i < |s| ==> s[i].name in names)
    && (forall i, j :: 0 <= i < j < |s| ==> FirstIndex(names, s[i].name) < FirstIndex(names, s[j].name))
  }

  lemma EntriesListedByFirstOccurrence(names: seq<string>)
    ensures Tally(names).Valid()
    ensures ListedByFirstOccurrence(Entries(Tally(names)), names)
  {
    TallySpec(names);
  }

  lemma ListedAppend(w: seq<Ranked>, y: Ranked, names: seq<string>)
    requires ListedByFirstOccurrence(w, names) && y.name in names
    requires forall z :: z in w ==> z.name in names && FirstIndex(names, z.name) < FirstIndex(names, y.name)
    ensures ListedByFirstOccurrence(w + [y], names)
  {
    var w' := w + [y];
    forall i, j | 0 <= i < j < |w'| ensures FirstIndex(names, w'[i].name) < FirstIndex(names, w'[j].name) {
      assert w'[i] == w[i];
      if j < |w| {
        assert w'[j] == w[j];
      } else {
        assert w[i] in w;
      }
    }
  }

  /** The elements of a prefix of `s` come before the next element of `s` in first-occurrence order. */
  lemma ListedBefore(s: seq<Ranked>, names: seq<string>, z: Ranked)
    requires s != [] && ListedByFirstOccurrence(s, names) && z in s[..|s| - 1]
    ensures z.name in names && FirstIndex(names, z.name) < FirstIndex(names, s[|s| - 1].name)
  {
    var p :| 0 <= p < |s| - 1 && s[p] == z;
  }

  /** Keeping only the elements with `c` commits keeps the first-occurrence order. */
  lemma {:induction false} WithCommitsListed(s: seq<Ranked>, names: seq<string>, c: nat)
    requires ListedByFirstOccurrence(s, names)
    ensures ListedByFirstOccurrence(WithCommits(s, c), names)
  {
    if s != [] {
      var n := |s| - 1;
      var s', y := s[..n], s[n];
      assert ListedByFirstOccurrence(s', names);
      WithCommitsListed(s', names, c);
      if y.commits == c {
        var w := WithCommits(s', c);
        forall z | z in w ensures z.name in names && FirstIndex(names, z.name) < FirstIndex(names, y.name) {
          WithCommitsMember(s', c, z);
          ListedBefore(s, names, z);
        }
        ListedAppend(w, y, names);
      }
    }
  }

  /** Where `r[i]` lands among the elements with its commit count. */
  lemma WithCommitsPosition(r: seq<Ranked>, i: nat, j: nat)
    requires i < j < |r| && r[i].commits == r[j].commits
    ensures var c := r[i].commits; var w := WithCommits(r, c);
      |WithCommits(r[..i], c)| < |WithCommits(r[..j], c)| < |w|
      && w[|WithCommits(r[..i], c)|] == r[i] && w[|WithCommits(r[..j], c)|] == r[j]
  {
    var c := r[i].commits;
    assert r == r[..i] + [r[i]] + r[i + 1..];
    WithCommitsConcat(r[..i] + [r[i]], r[i + 1..], c);
    WithCommitsAppend(r[..i], r[i], c);
    assert r == r[..j] + [r[j]] + r[j + 1..];
    WithCommitsConcat(r[..j] + [r[j]], r[j + 1..], c);
    WithCommitsAppend(r[..j], r[j], c);
    assert r[..j] == r[..i] + [r[i]] + r[i + 1..j];
    WithCommitsConcat(r[..i] + [r[i]], r[i + 1..j], c);
    WithCommitsAppend(r[..i], r[i], c);
  }

  /** A stable sort of a list in first-occurrence order keeps that order among equal counts. */
  lemma TiesKeepFirstOccurrenceOrder(r: seq<Ranked>, s: seq<Ranked>, names: seq<string>)
    requires Stable(r, s) && ListedByFirstOccurrence(s, names)
    requires forall i :: 0 <= i < |r| ==> r[i].name in names
    ensures forall i, j :: 0 <= i < j < |r| && r[i].commits == r[j].commits ==>
      FirstIndex(names, r[i].name) < FirstIndex(names, r[j].name)
  {
    forall i, j | 0 <= i < j < |r| && r[i].commits == r[j].commits
      ensures FirstIndex(names, r[i].name) < FirstIndex(names, r[j].name)
    {
      var c := r[i].commits;
      WithCommitsPosition(r, i, j);
      WithCommitsListed(s, names, c);
      assert WithCommits(r, c) == WithCommits(s, c);
    }
  }

  /** An element of the sorted list is an entry of the counting map. */
  lemma MostFrequentMember(data: seq<CommitRecord>, i: nat)
    requires i < |MostFrequent(data)|
    ensures var names := AuthorNames(data); var x := MostFrequent(data)[i];
      x.name in names && x.commits == Count(names, x.name) && x.commits >= 1
  {
    var names := AuthorNames(data);
    TallySpec(names);
    var list := Entries(Tally(names));
    var r := MostFrequent(data);
    StableSortPermutes(list);
    assert r[i] in multiset(list);
    var p :| 0 <= p < |list| && list[p] == r[i];
  }

  /**
   * The `/most-frequent` list is sorted by commit count, most first, and is
   * a stable rearrangement of the counting map's entries: one entry per
   * distinct author name.
   */
  lemma MostFrequentSorted(data: seq<CommitRecord>)
    ensures var names, r := AuthorNames(data), MostFrequent(data);
      && Tally(names).Valid()
      && SortedByCommits(r)
      && multiset(r) == multiset(Entries(Tally(names)))
      && Stable(r, Entries(Tally(names)))
      && |r| == |Tally(names).keys|
  {
    var names := AuthorNames(data);
    TallyValid(names);
    StableSortSpec(Entries(Tally(names)));
    StableSortPermutes(Entries(Tally(names)));
  }

  /** Each entry of the `/most-frequent` list carries an author's name and that author's number of commits. */
  lemma MostFrequentCounts(data: seq<CommitRecord>)
    ensures var names, r := AuthorNames(data), MostFrequent(data);
      forall i :: 0 <= i < |r| ==>
        r[i].name in names && r[i].commits == Count(names, r[i].name) && r[i].commits >= 1
  {
    forall i | 0 <= i < |MostFrequent(data)| {
      MostFrequentMember(data, i);
    }
  }

  /** Entries with equal counts keep the order of their authors' first commits. */
  lemma MostFrequentTies(data: seq<CommitRecord>)
    ensures var names, r := AuthorNames(data), MostFrequent(data);
      forall i, j :: 0 <= i < j < |r| && r[i].commits == r[j].commits ==>
        r[i].name in names && r[j].name in names &&
        FirstIndex(names, r[i].name) < FirstIndex(names, r[j].name)
  {
    var names, r := AuthorNames(data), MostFrequent(data);
    EntriesListedByFirstOccurrence(names);
    StableSortSpec(Entries(Tally(names)));
    MostFrequentCounts(data);
    TiesKeepFirstOccurrenceOrder(r, Entries(Tally(names)), names);
  }

  /** Every author appears in the `/most-frequent` list. */
  lemma MostFrequentCoversAuthors(data: seq<CommitRecord>)
    ensures var names, r := AuthorNames(data), MostFrequent(data);
      forall k :: 0 <= k < |names| ==> exists i :: 0 <= i < |r| && r[i].name == names[k]
  {
    var names, r := AuthorNames(data), MostFrequent(data);
    TallySpec(names);
    MostFrequentSorted(data);
    var counts := Tally(names);
    forall k | 0 <= k < |names| ensures exists i :: 0 <= i < |r| && r[i].name == names[k] {
      var p := KeyPosition(counts, names[k]);
      var e := Entries(counts)[p];
      assert e in multiset(r);
      var i :| 0 <= i < |r| && r[i] == e;
    }
  }

  /** No author appears twice in the `/most-frequent` list. */
  lemma MostFrequentAuthorsDistinct(data: seq<CommitRecord>)
    ensures var r := MostFrequent(data);
      forall i, j :: 0 <= i < j < |r| ==> r[i].name != r[j].name
  {
    MostFrequentCounts(data);
    MostFrequentTies(data);
  }

  /** Counting one more commit after `names` is one more step. */
  lemma TallySnoc(names: seq<string>, user: string)
    ensures Tally(names + [user]) == Record(Tally(names), user)
  {
    assert (names + [user])[..|names|] == names;
  }

  /** Counting a name not seen before appends it with count 1. */
  lemma RecordNew(counts: OrderedMap<string, nat>, user: string)
    requires !counts.Has(user)
    ensures Record(counts, user).keys == counts.keys + [user]
    ensures Record(counts, user).entries == counts.entries[user := 1]
  {
  }

  /** Counting a name seen before increments its count in place. */
  lemma RecordSeen(counts: OrderedMap<string, nat>, user: string)
    requires counts.Has(user)
    ensures Record(counts, user).keys == counts.keys
    ensures Record(counts, user).entries == counts.entries[user := counts.entries[user] + 1]
  {
  }

  /** Commits by `a`, then `b` twice: `a` counted once, then `b` twice. */
  lemma TallyOneThenTwo(a: string, b: string)
    requires a != b
    ensures Tally([a, b, b]) == OrderedMap([a, b], map[a := 1, b := 2])
  {
    var t0: OrderedMap<string, nat> := Tally([]);
    TallySnoc([], a);
    TallySnoc([a], b);
    TallySnoc([a, b], b);
    assert [] + [a] == [a] && [a] + [b] == [a, b] && [a, b] + [b] == [a, b, b];
    var t1, t2 := Tally([a]), Tally([a, b]);
    RecordNew(t0, a);
    assert t1.keys == [a] && t1.entries == map[a := 1];
    RecordNew(t1, b);
    assert t2.keys == [a, b] && t2.entries == map[a := 1, b := 1];
    RecordSeen(t2, b);
  }

  /** Sorting the two entries of the example puts the author with two commits first. */
  lemma ExampleSort()
    ensures StableSort([Ranked("TestUser", 1), Ranked("TestUser2", 2)])
      == [Ranked("TestUser2", 2), Ranked("TestUser", 1)]
  {
    var list := [Ranked("TestUser", 1), Ranked("TestUser2", 2)];
    assert list[..1] == [list[0]] && list[..1][..0] == [];
    assert StableSort(list[..1]) == [list[0]];
    assert [list[0]][..0] == [];
    assert Insert([list[0]], list[1]) == [list[1], list[0]];
    assert StableSort(list) == Insert([list[0]], list[1]);
  }

  /** The two-author listing of the handler's tests: the author with two commits comes first. */
  lemma MostFrequentExample()
    ensures MostFrequent([
      CommitRecord("TestUser", "test@gmail.com"),
      CommitRecord("TestUser2", "test2@gmail.com"),
      CommitRecord("TestUser2", "test2@gmail.com")])
      == [Ranked("TestUser2", 2), Ranked("TestUser", 1)]
  {
    var data := [
      CommitRecord("TestUser", "test@gmail.com"),
      CommitRecord("TestUser2", "test2@gmail.com"),
      CommitRecord("TestUser2", "test2@gmail.com")];
    assert AuthorNames(data) == ["TestUser", "TestUser2", "TestUser2"];
    TallyOneThenTwo("TestUser", "TestUser2");
    ExampleSort();
    assert Entries(Tally(AuthorNames(data))) == [Ranked("TestUser", 1), Ranked("TestUser2", 2)];
  }

  // ---------------------------------------------------------------------------
  // The documented "top 5"
  // ---------------------------------------------------------------------------

  /** Six authors with one commit each: the list returned has six entries, not at most five. */
  lemma MostFrequentNotTruncated()
    ensures |MostFrequent([
      CommitRecord("a", "a@x"), CommitRecord("b", "b@x"), CommitRecord("c", "c@x"),
      CommitRecord("d", "d@x"), CommitRecord("e", "e@x"), CommitRecord("f", "f@x")])| == 6
  {
    var data := [
      CommitRecord("a", "a@x"), CommitRecord("b", "b@x"), CommitRecord("c", "c@x"),
      CommitRecord("d", "d@x"), CommitRecord("e", "e@x"), CommitRecord("f", "f@x")];
    var names := AuthorNames(data);
    assert names == ["a", "b", "c", "d", "e", "f"];
    TallyKeysDistinct(names);
    TallyValid(names);
  }

  /**
   * The list the handler's documentation promises: the five contributors
   * with the most commits, that is, the sorted list cut after five entries.
   */
  function TopFive(data: seq<CommitRecord>): (top: seq<Ranked>)
    ensures |top| <= 5 && |top| <= |MostFrequent(data)|
    ensures |top| == 5 || top == MostFrequent(data)
    ensures top == MostFrequent(data)[..|top|]
    ensures forall x, y :: x in top && y in MostFrequent(data)[|top|..] ==> x.commits >= y.commits
  {
    var r := MostFrequent(data);
    MostFrequentSorted(data);
    if |r| <= 5 then r else r[..5]
  }
}

/**
 * The trending-list editor of the dashboard (app/trending/page.tsx).
 *
 * The page keeps two lists of posts: the untracked ones (`allPosts`) and the
 * trending ones (`trendingPosts`, in display order). Editing handlers replace
 * those lists; `saveChanges` then writes the ranks to the record store in two
 * phases: clear every rank, then set the rank of each trending post.
 */
module Trending {
  import opened Wrappers

  /** The columns the page selects: `id, title, category, trending_rank`. */
  datatype Post = Post(id: string, title: string, category: string, trendingRank: Option<int>)

  /** The partition that loading produces. */
  datatype Lists = Lists(untracked: seq<Post>, ranked: seq<Post>)

  predicate IsUntracked(p: Post) { p.trendingRank.None? }

  predicate IsRanked(p: Post) { p.trendingRank.Some? }

  /** The predicate `p => p.id !== id` of the handlers' `filter` calls. */
  function HasOtherId(id: string): Post -> bool
  {
    (p: Post) => p.id != id
  }

  /** The ids of a list of posts. */
  function Ids(s: seq<Post>): set<string>
  {
    set p | p in s :: p.id
  }

  /** No two entries of the list share an id (true of rows keyed by `id`). */
  predicate DistinctIds(s: seq<Post>)
  {
    forall i, j :: 0 <= i < j < |s| ==> s[i].id != s[j].id
  }

  // ---------------------------------------------------------------------------
  // Pure list operations: `filter`, `sort`, `map` and the adjacent swap
  // ---------------------------------------------------------------------------

  /** `Array.prototype.filter`: the elements that `keep` accepts, in their order. */
  function Filter(s: seq<Post>, keep: Post -> bool): (r: seq<Post>)
    ensures |r| <= |s|
    ensures forall x :: x in r <==> x in s && keep(x)
  {
    if s == [] then []
    else
      assert s == [s[0]] + s[1..];
      (if keep(s[0]) then [s[0]] else []) + Filter(s[1..], keep)
  }

  /** Filtering distributes over concatenation: the kept elements keep their relative order. */
  lemma {:induction false} FilterConcat(s: seq<Post>, t: seq<Post>, keep: Post -> bool)
    ensures Filter(s + t, keep) == Filter(s, keep) + Filter(t, keep)
  {
    if s == [] {
      assert s + t == t;
    } else {
      assert (s + t)[1..] == s[1..] + t;
      FilterConcat(s[1..], t, keep);
    }
  }

  /** A filter that keeps every element returns the list itself. */
  lemma {:induction false} FilterKeepsAll(s: seq<Post>, keep: Post -> bool)
    requires forall x :: x in s ==> keep(x)
    ensures Filter(s, keep) == s
  {
    if s != [] {
      FilterKeepsAll(s[1..], keep);
    }
  }

  /** The sort key of the comparator: `trending_rank || 0`. */
  function RankKey(p: Post): int
  {
    match p.trendingRank
    case Some(r) => r
    case None => 0
  }

  /** Each entry's key is at most the next one's. */
  ghost predicate SortedByRank(s: seq<Post>)
  {
    forall i :: 0 <= i < |s| - 1 ==> RankKey(s[i]) <= RankKey(s[i + 1])
  }

  /** A list sorted step by step is sorted between any two positions. */
  lemma {:induction false} SortedByRankPairwise(s: seq<Post>, i: nat, j: nat)
    requires SortedByRank(s) && i <= j < |s|
    ensures RankKey(s[i]) <= RankKey(s[j])
    decreases j - i
  {
    if i < j {
      SortedByRankPairwise(s, i + 1, j);
    }
  }

  /**
   * Insertion of `p` in front of the first element whose key is not smaller,
   * so that `p` stays ahead of the equal keys that follow it in the input.
   */
  function InsertByRank(p: Post, s: seq<Post>): (r: seq<Post>)
    requires SortedByRank(s)
    ensures SortedByRank(r)
    ensures multiset(r) == multiset(s) + multiset{p}
    ensures r[0] == p || (s != [] && r[0] == s[0])
  {
    if s == [] || RankKey(p) <= RankKey(s[0]) then [p] + s
    else
      var rest := InsertByRank(p, s[1..]);
      assert s == [s[0]] + s[1..];
      [s[0]] + rest
  }

  /**
   * The stable ascending sort by rank that `sort` performs with the comparator
   * `(a, b) => (a.trending_rank || 0) - (b.trending_rank || 0)`.
   */
  function SortByRank(s: seq<Post>): (r: seq<Post>)
    ensures SortedByRank(r)
    ensures multiset(r) == multiset(s)
  {
    if s == [] then []
    else
      assert s == [s[0]] + s[1..];
      InsertByRank(s[0], SortByRank(s[1..]))
  }

  /** Whether a post's sort key is `k`. */
  function HasRankKey(k: int): Post -> bool
  {
    (p: Post) => RankKey(p) == k
  }

  /** A one-element list filters to itself or to nothing. */
  lemma FilterSingle(x: Post, keep: Post -> bool)
    ensures Filter([x], keep) == if keep(x) then [x] else []
  {
    assert [x][1..] == [];
  }

  /** Of two lists one of which is empty, either may come first. */
  lemma EmptyCommutes(a: seq<Post>, b: seq<Post>, c: seq<Post>)
    requires a == [] || b == []
    ensures a + (b + c) == b + (a + c)
  {
    if a == [] {
      assert a + (b + c) == b + c == b + (a + c);
    } else {
      assert a + (b + c) == a + c == b + (a + c);
    }
  }

  /**
   * Inserting moves `p` only past entries with a smaller key, so among the
   * entries of any one key the order is that of `[p] + s`.
   */
  lemma {:induction false} InsertByRankStable(p: Post, s: seq<Post>, k: int)
    requires SortedByRank(s)
    ensures Filter(InsertByRank(p, s), HasRankKey(k)) == Filter([p] + s, HasRankKey(k))
  {
    var key := HasRankKey(k);
    if s != [] && RankKey(p) > RankKey(s[0]) {
      var rest := s[1..];
      var first, moved, others := Filter([s[0]], key), Filter([p], key), Filter(rest, key);
      assert Filter(InsertByRank(p, s), key) == first + (moved + others) by {
        assert SortedByRank(rest);
        InsertByRankStable(p, rest, k);
        FilterConcat([p], rest, key);
        assert InsertByRank(p, s) == [s[0]] + InsertByRank(p, rest);
        FilterConcat([s[0]], InsertByRank(p, rest), key);
      }
      assert Filter([p] + s, key) == moved + (first + others) by {
        assert s == [s[0]] + rest;
        FilterConcat([s[0]], rest, key);
        FilterConcat([p], s, key);
      }
      assert first == [] || moved == [] by {
        FilterSingle(p, key);
        FilterSingle(s[0], key);
      }
      EmptyCommutes(first, moved, others);
    } else {
      assert InsertByRank(p, s) == [p] + s;
    }
  }

  /** The sort is stable: the entries of any one key keep their relative order. */
  lemma {:induction false} SortByRankStable(s: seq<Post>, k: int)
    ensures Filter(SortByRank(s), HasRankKey(k)) == Filter(s, HasRankKey(k))
  {
    if s != [] {
      var key := HasRankKey(k);
      var sortedRest := SortByRank(s[1..]);
      assert Filter(SortByRank(s), key) == Filter([s[0]], key) + Filter(s[1..], key) by {
        assert SortByRank(s) == InsertByRank(s[0], sortedRest);
        InsertByRankStable(s[0], sortedRest, k);
        FilterConcat([s[0]], sortedRest, key);
        SortByRankStable(s[1..], k);
      }
      assert s == [s[0]] + s[1..];
      FilterConcat([s[0]], s[1..], key);
    }
  }

  /** Every item's rank is its 1-based position: ranks `1..n` with no gaps and no repeats. */
  predicate Contiguous(t: seq<Post>)
  {
    forall i :: 0 <= i < |t| ==> t[i].trendingRank == Some(i + 1)
  }

  /** The post apart from its rank. */
  function Unranked(p: Post): Post
  {
    p.(trendingRank := None)
  }

  /** `map((p, i) => ({ ...p, trending_rank: i + 1 }))`. */
  function Renumber(s: seq<Post>): (r: seq<Post>)
    ensures |r| == |s|
    ensures Contiguous(r)
    ensures forall i :: 0 <= i < |s| ==> Unranked(r[i]) == Unranked(s[i])
  {
    seq(|s|, i requires 0 <= i < |s| => s[i].(trendingRank := Some(i + 1)))
  }

  /** The list with entries `i` and `i + 1` exchanged. */
  function SwapAdjacent(s: seq<Post>, i: nat): (r: seq<Post>)
    requires i + 1 < |s|
    ensures |r| == |s|
    ensures r[i] == s[i + 1] && r[i + 1] == s[i]
    ensures forall k :: 0 <= k < |s| && k != i && k != i + 1 ==> r[k] == s[k]
    ensures multiset(r) == multiset(s)
  {
    s[i := s[i + 1]][i + 1 := s[i]]
  }

  // ---------------------------------------------------------------------------
  // Loading
  // ---------------------------------------------------------------------------

  /**
   * What `fetchPosts` makes of the fetched rows: the unranked ones in fetch
   * order, and the ranked ones sorted by rank with their ranks left as loaded.
   */
  function Partition(posts: seq<Post>): (r: Lists)
    ensures forall p :: p in r.untracked <==> p in posts && IsUntracked(p)
    ensures forall p :: p in r.ranked <==> p in posts && IsRanked(p)
    ensures multiset(r.untracked) + multiset(r.ranked) == multiset(posts)
    ensures SortedByRank(r.ranked)
  {
    var ranked := Filter(posts, IsRanked);
    var sorted := SortByRank(ranked);
    assert forall p :: p in sorted <==> p in ranked by {
      forall p ensures p in sorted <==> p in ranked {
        assert p in sorted <==> p in multiset(sorted);
      }
    }
    FilterPartitionsPosts(posts);
    Lists(Filter(posts, IsUntracked), sorted)
  }

  /**
   * Loading keeps the fetched order among ranked posts of equal rank, and
   * the fetched order of the untracked posts.
   */
  lemma PartitionStable(posts: seq<Post>, k: int)
    ensures Filter(Partition(posts).ranked, HasRankKey(k)) == Filter(Filter(posts, IsRanked), HasRankKey(k))
    ensures Partition(posts).untracked == Filter(posts, IsUntracked)
  {
    SortByRankStable(Filter(posts, IsRanked), k);
  }

  /** Every fetched row lands in exactly one of the two filters. */
  lemma {:induction false} FilterPartitionsPosts(posts: seq<Post>)
    ensures multiset(Filter(posts, IsUntracked)) + multiset(Filter(posts, IsRanked)) == multiset(posts)
  {
    if posts != [] {
      var p, rest := posts[0], posts[1..];
      FilterPartitionsPosts(rest);
      assert posts == [p] + rest;
      assert multiset(posts) == multiset{p} + multiset(rest);
      if IsUntracked(p) {
        assert Filter(posts, IsUntracked) == [p] + Filter(rest, IsUntracked);
        assert Filter(posts, IsRanked) == Filter(rest, IsRanked);
      } else {
        assert Filter(posts, IsUntracked) == Filter(rest, IsUntracked);
        assert Filter(posts, IsRanked) == [p] + Filter(rest, IsRanked);
      }
    }
  }

  /** For rows with distinct ids the two loaded lists have disjoint ids covering all rows. */
  lemma LoadedListsDisjoint(posts: seq<Post>)
    requires DistinctIds(posts)
    ensures Ids(Partition(posts).untracked) !! Ids(Partition(posts).ranked)
    ensures Ids(Partition(posts).untracked) + Ids(Partition(posts).ranked) == Ids(posts)
  {
    var r := Partition(posts);
    forall a, b | a in r.untracked && b in r.ranked ensures a.id != b.id {
      var i :| 0 <= i < |posts| && posts[i] == a;
      var j :| 0 <= j < |posts| && posts[j] == b;
      assert i != j;
    }
    forall id | id in Ids(posts) ensures id in Ids(r.untracked) + Ids(r.ranked) {
      var p :| p in posts && p.id == id;
      if IsUntracked(p) {
        assert p in r.untracked;
      } else {
        assert p in r.ranked;
      }
    }
  }

  /**
   * Loading keeps the ranks it reads: rows A, B, C, D ranked none, 3, none, 1
   * come out as untracked A, C and trending D, B with ranks 1 and 3, not 1 and 2.
   */
  lemma LoadDoesNotRenumber()
    ensures var a := Post("a", "A", "News", None);
            var b := Post("b", "B", "News", Some(3));
            var c := Post("c", "C", "News", None);
            var d := Post("d", "D", "News", Some(1));
            Partition([a, b, c, d]) == Lists([a, c], [d, b]) && !Contiguous(Partition([a, b, c, d]).ranked)
  {
    var a := Post("a", "A", "News", None);
    var b := Post("b", "B", "News", Some(3));
    var c := Post("c", "C", "News", None);
    var d := Post("d", "D", "News", Some(1));
    var rows := [a, b, c, d];
    FilterExample(a, b, c, d);
    SortExample(b, d);
    var r := Partition(rows);
    assert r == Lists(Filter(rows, IsUntracked), SortByRank(Filter(rows, IsRanked)));
    assert r == Lists([a, c], [d, b]);
    assert r.ranked[1].trendingRank != Some(2);
  }

  /** Sorting two ranked rows that arrive out of rank order swaps them. */
  lemma SortExample(b: Post, d: Post)
    requires RankKey(d) < RankKey(b)
    ensures SortByRank([b, d]) == [d, b]
  {
    assert [b, d][1..] == [d] && [d][1..] == [];
    assert SortByRank([]) == [];
    assert InsertByRank(d, []) == [d];
    assert SortByRank([d]) == [d];
    assert InsertByRank(b, []) == [b];
    assert InsertByRank(b, [d]) == [d, b];
    assert SortByRank([b, d]) == InsertByRank(b, [d]);
  }

  /** The two filters of loading on the rows of the example above. */
  lemma FilterExample(a: Post, b: Post, c: Post, d: Post)
    requires IsUntracked(a) && IsRanked(b) && IsUntracked(c) && IsRanked(d)
    ensures Filter([a, b, c, d], IsRanked) == [b, d]
    ensures Filter([a, b, c, d], IsUntracked) == [a, c]
  {
    var rows := [a, b, c, d];
    assert rows[1..] == [b, c, d] && [b, c, d][1..] == [c, d] && [c, d][1..] == [d] && [d][1..] == [];
    FilterRankedExample(a, b, c, d);
    assert Filter([d], IsUntracked) == Filter([], IsUntracked);
    assert Filter([c, d], IsUntracked) == [c] + Filter([d], IsUntracked);
    assert Filter([b, c, d], IsUntracked) == Filter([c, d], IsUntracked);
    assert Filter(rows, IsUntracked) == [a] + Filter([b, c, d], IsUntracked);
  }

  lemma FilterRankedExample(a: Post, b: Post, c: Post, d: Post)
    requires IsUntracked(a) && IsRanked(b) && IsUntracked(c) && IsRanked(d)
    ensures Filter([a, b, c, d], IsRanked) == [b, d]
  {
    var rows := [a, b, c, d];
    assert rows[1..] == [b, c, d] && [b, c, d][1..] == [c, d] && [c, d][1..] == [d] && [d][1..] == [];
    assert Filter([d], IsRanked) == [d] + Filter([], IsRanked);
    assert Filter([c, d], IsRanked) == Filter([d], IsRanked);
    assert Filter([b, c, d], IsRanked) == [b] + Filter([c, d], IsRanked);
    assert Filter(rows, IsRanked) == Filter([b, c, d], IsRanked);
  }

  /**
   * Adding after such a load repeats a rank: with the loaded list D(1), B(3),
   * adding A gives it rank 3, the rank B was loaded with.
   */
  lemma AddAfterGappedLoadRepeatsRank(a: Post, b: Post, d: Post)
    requires d.trendingRank == Some(1) && b.trendingRank == Some(3)
    ensures var t := [d, b];
            var added := t + [a.(trendingRank := Some(|t| + 1))];
            |added| == 3 && added[1].trendingRank == added[2].trendingRank == Some(3)
  {
  }

  // ---------------------------------------------------------------------------
  // Properties of the editing steps
  // ---------------------------------------------------------------------------

  /** Appending with rank `length + 1` keeps ranks contiguous when they already were. */
  lemma AppendKeepsContiguous(t: seq<Post>, p: Post)
    requires Contiguous(t)
    ensures Contiguous(t + [p.(trendingRank := Some(|t| + 1))])
  {
  }

  /** Renumbering a list whose ranks are already its positions changes nothing. */
  lemma RenumberContiguousIsIdentity(t: seq<Post>)
    requires Contiguous(t)
    ensures Renumber(t) == t
  {
    var r := Renumber(t);
    forall i | 0 <= i < |t| ensures r[i] == t[i] {
      assert Unranked(r[i]) == Unranked(t[i]);
    }
  }

  /** Renumbering keeps the ids in place. */
  lemma RenumberKeepsIds(s: seq<Post>)
    ensures Ids(Renumber(s)) == Ids(s)
  {
    var r := Renumber(s);
    forall id | id in Ids(s) ensures id in Ids(r) {
      var i :| 0 <= i < |s| && s[i].id == id;
      assert Unranked(r[i]) == Unranked(s[i]);
      assert r[i] in r;
    }
    forall id | id in Ids(r) ensures id in Ids(s) {
      var i :| 0 <= i < |r| && r[i].id == id;
      assert Unranked(r[i]) == Unranked(s[i]);
      assert s[i] in s;
    }
  }

  /** A swap keeps the set of ids. */
  lemma SwapKeepsIds(s: seq<Post>, i: nat)
    requires i + 1 < |s|
    ensures Ids(SwapAdjacent(s, i)) == Ids(s)
  {
    var r := SwapAdjacent(s, i);
    assert forall p :: p in r <==> p in s by {
      forall p ensures p in r <==> p in s {
        assert p in r <==> p in multiset(r);
      }
    }
  }

  /** Removing every entry with a given id takes exactly that id out of the id set. */
  lemma FilterIdIds(s: seq<Post>, id: string)
    ensures Ids(Filter(s, HasOtherId(id))) == Ids(s) - {id}
  {
    var r := Filter(s, HasOtherId(id));
    forall x | x in Ids(s) - {id} ensures x in Ids(r) {
      var p :| p in s && p.id == x;
      assert HasOtherId(id)(p);
    }
  }

  /** Appending a post adds exactly its id. */
  lemma AppendIds(s: seq<Post>, p: Post)
    ensures Ids(s + [p]) == Ids(s) + {p.id}
  {
    var r := s + [p];
    assert r[|s|] == p;
    forall x | x in Ids(r) ensures x in Ids(s) + {p.id} {
      var q :| q in r && q.id == x;
      if q !in s {
        assert q == p;
      }
    }
  }

  /** A list with a head has distinct ids exactly when its tail has and lacks the head's id. */
  lemma DistinctCons(p: Post, t: seq<Post>)
    ensures DistinctIds([p] + t) <==> p.id !in Ids(t) && DistinctIds(t)
  {
    var s := [p] + t;
    assert forall i :: 0 <= i < |t| ==> s[i + 1] == t[i];
    if DistinctIds(s) {
      forall q | q in t ensures q.id != p.id {
        var j :| 0 <= j < |t| && t[j] == q;
        assert s[0] == p && s[j + 1] == q;
        assert s[0].id != s[j + 1].id;
      }
      forall i, j | 0 <= i < j < |t| ensures t[i].id != t[j].id {
        assert s[i + 1] == t[i] && s[j + 1] == t[j];
      }
    }
    if p.id !in Ids(t) && DistinctIds(t) {
      forall i, j | 0 <= i < j < |s| ensures s[i].id != s[j].id {
        assert s[j] == t[j - 1];
        if i > 0 {
          assert s[i] == t[i - 1];
        } else {
          assert s[j] in t;
        }
      }
    }
  }

  /** Appending a post whose id is new keeps the ids distinct. */
  lemma DistinctSnoc(s: seq<Post>, p: Post)
    requires DistinctIds(s) && p.id !in Ids(s)
    ensures DistinctIds(s + [p])
  {
    var r := s + [p];
    forall i, j | 0 <= i < j < |r| ensures r[i].id != r[j].id {
      assert r[i] == s[i];
      if j == |s| {
        assert r[i] in s;
      } else {
        assert r[j] == s[j];
      }
    }
  }

  /** A filter keeps distinct ids distinct. */
  lemma {:induction false} FilterKeepsDistinct(s: seq<Post>, keep: Post -> bool)
    requires DistinctIds(s)
    ensures DistinctIds(Filter(s, keep))
  {
    if s != [] {
      assert s == [s[0]] + s[1..];
      DistinctCons(s[0], s[1..]);
      FilterKeepsDistinct(s[1..], keep);
      var rest := Filter(s[1..], keep);
      if keep(s[0]) {
        assert s[0].id !in Ids(rest);
        DistinctCons(s[0], rest);
      } else {
        assert Filter(s, keep) == rest;
      }
    }
  }

  /** Inserting a post whose id is new keeps the ids distinct. */
  lemma {:induction false} InsertByRankKeepsDistinct(p: Post, s: seq<Post>)
    requires SortedByRank(s) && DistinctIds(s) && p.id !in Ids(s)
    ensures DistinctIds(InsertByRank(p, s))
  {
    if s == [] || RankKey(p) <= RankKey(s[0]) {
      DistinctCons(p, s);
    } else {
      var rest := s[1..];
      assert s == [s[0]] + rest;
      DistinctCons(s[0], rest);
      assert SortedByRank(rest);
      assert p.id !in Ids(rest) by {
        assert forall q :: q in rest ==> q in s;
      }
      InsertByRankKeepsDistinct(p, rest);
      var inserted := InsertByRank(p, rest);
      assert s[0].id !in Ids(inserted) by {
        forall q | q in inserted ensures q.id != s[0].id {
          assert q in multiset(inserted);
          assert q in rest || q == p;
        }
      }
      DistinctCons(s[0], inserted);
    }
  }

  /** Sorting keeps distinct ids distinct. */
  lemma {:induction false} SortByRankKeepsDistinct(s: seq<Post>)
    requires DistinctIds(s)
    ensures DistinctIds(SortByRank(s))
  {
    if s != [] {
      var rest := s[1..];
      assert s == [s[0]] + rest;
      DistinctCons(s[0], rest);
      SortByRankKeepsDistinct(rest);
      var sorted := SortByRank(rest);
      assert s[0].id !in Ids(sorted) by {
        forall q | q in sorted ensures q.id != s[0].id {
          assert q in multiset(sorted);
          assert q in rest;
        }
      }
      InsertByRankKeepsDistinct(s[0], sorted);
    }
  }

  /** Renumbering changes no id, so distinctness is kept both ways. */
  lemma RenumberKeepsDistinct(s: seq<Post>)
    ensures DistinctIds(Renumber(s)) <==> DistinctIds(s)
  {
    var r := Renumber(s);
    assert forall i :: 0 <= i < |s| ==> r[i].id == Unranked(r[i]).id == Unranked(s[i]).id == s[i].id;
  }

  /** Exchanging two neighbours changes no id, so distinctness is kept both ways. */
  lemma SwapKeepsDistinct(s: seq<Post>, k: nat)
    requires k + 1 < |s|
    ensures DistinctIds(SwapAdjacent(s, k)) <==> DistinctIds(s)
  {
    var r := SwapAdjacent(s, k);
    if DistinctIds(s) {
      forall i, j | 0 <= i < j < |r| ensures r[i].id != r[j].id {
        var a := if i == k then k + 1 else if i == k + 1 then k else i;
        var b := if j == k then k + 1 else if j == k + 1 then k else j;
        assert r[i] == s[a] && r[j] == s[b] && a != b;
      }
    }
    if DistinctIds(r) {
      forall i, j | 0 <= i < j < |s| ensures s[i].id != s[j].id {
        var a := if i == k then k + 1 else if i == k + 1 then k else i;
        var b := if j == k then k + 1 else if j == k + 1 then k else j;
        assert s[i] == r[a] && s[j] == r[b] && a != b;
      }
    }
  }

  /** Rows with distinct ids load into two lists with distinct ids. */
  lemma LoadedListsDistinct(posts: seq<Post>)
    requires DistinctIds(posts)
    ensures DistinctIds(Partition(posts).untracked) && DistinctIds(Partition(posts).ranked)
  {
    FilterKeepsDistinct(posts, IsUntracked);
    FilterKeepsDistinct(posts, IsRanked);
    SortByRankKeepsDistinct(Filter(posts, IsRanked));
  }

  /** What adding a post keeps of the two lists' invariants. */
  lemma AddKeepsInvariants(untracked: seq<Post>, trending: seq<Post>, post: Post)
    ensures var u := Filter(untracked, HasOtherId(post.id));
            var t := trending + [post.(trendingRank := Some(|trending| + 1))];
            && post.id !in Ids(u)
            && (Ids(untracked) !! Ids(trending) && post.id in Ids(untracked) ==>
                  Ids(u) !! Ids(t) && Ids(u) + Ids(t) == Ids(untracked) + Ids(trending))
            && (DistinctIds(untracked) ==> DistinctIds(u))
            && (DistinctIds(trending) && post.id !in Ids(trending) ==> DistinctIds(t))
            && (Contiguous(trending) ==> Contiguous(t))
  {
    var entry := post.(trendingRank := Some(|trending| + 1));
    FilterIdIds(untracked, post.id);
    if Ids(untracked) !! Ids(trending) && post.id in Ids(untracked) {
      AddKeepsPartition(untracked, trending, post);
    }
    if DistinctIds(untracked) {
      FilterKeepsDistinct(untracked, HasOtherId(post.id));
    }
    if DistinctIds(trending) && post.id !in Ids(trending) {
      DistinctSnoc(trending, entry);
    }
    if Contiguous(trending) {
      AppendKeepsContiguous(trending, post);
    }
  }

  /** Adding an untracked post keeps the lists disjoint and the ids they hold together. */
  lemma AddKeepsPartition(untracked: seq<Post>, trending: seq<Post>, post: Post)
    requires Ids(untracked) !! Ids(trending) && post.id in Ids(untracked)
    ensures var u := Filter(untracked, HasOtherId(post.id));
            var t := trending + [post.(trendingRank := Some(|trending| + 1))];
            Ids(u) !! Ids(t) && Ids(u) + Ids(t) == Ids(untracked) + Ids(trending)
  {
    FilterIdIds(untracked, post.id);
    AppendIds(trending, post.(trendingRank := Some(|trending| + 1)));
  }

  /** Removing a trending post keeps the lists disjoint and the ids they hold together. */
  lemma RemoveKeepsPartition(untracked: seq<Post>, trending: seq<Post>, post: Post)
    requires Ids(untracked) !! Ids(trending) && post.id in Ids(trending)
    ensures var u := untracked + [post.(trendingRank := None)];
            var t := Renumber(Filter(trending, HasOtherId(post.id)));
            Ids(u) !! Ids(t) && Ids(u) + Ids(t) == Ids(untracked) + Ids(trending)
  {
    FilterIdIds(trending, post.id);
    RenumberKeepsIds(Filter(trending, HasOtherId(post.id)));
    AppendIds(untracked, post.(trendingRank := None));
  }

  /**
   * Adding a post that is not trending and then removing it again gives back
   * the trending list, when its ranks were contiguous.
   */
  lemma {:induction false} AddThenRemoveRestoresTrending(t: seq<Post>, post: Post)
    requires Contiguous(t) && post.id !in Ids(t)
    ensures Renumber(Filter(t + [post.(trendingRank := Some(|t| + 1))], HasOtherId(post.id))) == t
  {
    var added := post.(trendingRank := Some(|t| + 1));
    FilterConcat(t, [added], HasOtherId(post.id));
    assert [added][1..] == [];
    assert Filter([added], HasOtherId(post.id)) == [];
    assert forall p :: p in t ==> HasOtherId(post.id)(p) by {
      forall p | p in t ensures HasOtherId(post.id)(p) {
        assert p.id in Ids(t);
      }
    }
    FilterKeepsAll(t, HasOtherId(post.id));
    assert t + [] == t;
    RenumberContiguousIsIdentity(t);
  }

  // ---------------------------------------------------------------------------
  // The record store and the save protocol
  // ---------------------------------------------------------------------------

  /** The two kinds of `update` the save issues on the `posts` table. */
  datatype Write =
    | ClearRanks                                   // update {trending_rank: null} where trending_rank is not null
    | SetRank(id: string, rank: Option<int>)       // update {trending_rank: rank} where id = id

  /**
   * How the store answers one update: it applies it, it reports an error in
   * the returned `{error}` value (nothing changes), or the call throws.
   */
  datatype WriteOutcome = Applied | Reported | Thrown

  /** The effect of an applied write on the store's `id -> trending_rank` column. */
  function ApplyWrite(ranks: map<string, Option<int>>, w: Write): (r: map<string, Option<int>>)
    ensures r.Keys == ranks.Keys
    ensures w.ClearRanks? ==> forall id :: id in r ==> r[id] == None
    ensures w.SetRank? ==> forall id :: id in r ==> r[id] == (if id == w.id then w.rank else ranks[id])
  {
    match w
    case ClearRanks => map id | id in ranks :: None
    case SetRank(id, rank) => if id in ranks then ranks[id := rank] else ranks
  }

  /** The outcome of the `k`-th write; writes without a given outcome are applied. */
  function OutcomeAt(outcomes: seq<WriteOutcome>, k: nat): WriteOutcome
  {
    if k < |outcomes| then outcomes[k] else Applied
  }

  /** The writes of `saveChanges`, in the order it awaits them. */
  function SaveWrites(trending: seq<Post>): (ws: seq<Write>)
    ensures |ws| == |trending| + 1 && ws[0] == ClearRanks
    ensures forall k :: 0 <= k < |trending| ==> ws[k + 1] == SetRank(trending[k].id, trending[k].trendingRank)
  {
    if trending == [] then [ClearRanks]
    else
      var n := |trending| - 1;
      assert trending[..n] + [trending[n]] == trending;
      SaveWrites(trending[..n]) + [SetRank(trending[n].id, trending[n].trendingRank)]
  }

  /** The store column after a run, the writes that were sent, and whether a write threw. */
  datatype Execution = Execution(ranks: map<string, Option<int>>, issued: seq<Write>, threw: bool)

  /**
   * Sending the writes one after another: a reported error is ignored and the
   * next write is sent; a thrown error ends the run.
   */
  function Execute(ranks: map<string, Option<int>>, ws: seq<Write>, outcomes: seq<WriteOutcome>): (e: Execution)
    ensures e.ranks.Keys == ranks.Keys
  {
    if ws == [] then Execution(ranks, [], false)
    else
      var n := |ws| - 1;
      var prev := Execute(ranks, ws[..n], outcomes);
      if prev.threw then prev
      else
        var o := OutcomeAt(outcomes, n);
        Execution(if o == Applied then ApplyWrite(prev.ranks, ws[n]) else prev.ranks,
                  prev.issued + [ws[n]], o == Thrown)
  }

  /** The writes sent are a prefix of the writes, and all of them unless one threw. */
  lemma {:induction false} ExecuteIssuedPrefix(ranks: map<string, Option<int>>, ws: seq<Write>,
                                               outcomes: seq<WriteOutcome>)
    ensures var e := Execute(ranks, ws, outcomes);
            |e.issued| <= |ws| && e.issued == ws[..|e.issued|] && (!e.threw ==> e.issued == ws)
  {
    if ws != [] {
      var n := |ws| - 1;
      ExecuteIssuedPrefix(ranks, ws[..n], outcomes);
      var prev := Execute(ranks, ws[..n], outcomes);
      assert ws[..n][..|prev.issued|] == ws[..|prev.issued|];
      assert ws[..n] + [ws[n]] == ws;
    }
  }

  /** A run ends early exactly when one of its writes throws; reported errors never end it. */
  lemma {:induction false} ExecuteThrowsIff(ranks: map<string, Option<int>>, ws: seq<Write>,
                                            outcomes: seq<WriteOutcome>)
    ensures !Execute(ranks, ws, outcomes).threw <==> forall k :: 0 <= k < |ws| ==> OutcomeAt(outcomes, k) != Thrown
  {
    if ws != [] {
      var n := |ws| - 1;
      ExecuteThrowsIff(ranks, ws[..n], outcomes);
    }
  }

  /** A run that threw stopped at the first write that threw. */
  lemma {:induction false} ExecuteThrowsOnlyAtThrown(ranks: map<string, Option<int>>, ws: seq<Write>,
                                                     outcomes: seq<WriteOutcome>)
    ensures var e := Execute(ranks, ws, outcomes);
            e.threw ==> |e.issued| > 0 && OutcomeAt(outcomes, |e.issued| - 1) == Thrown
                        && forall k :: 0 <= k < |e.issued| - 1 ==> OutcomeAt(outcomes, k) != Thrown
  {
    if ws != [] {
      var n := |ws| - 1;
      var prev := Execute(ranks, ws[..n], outcomes);
      if prev.threw {
        ExecuteThrowsOnlyAtThrown(ranks, ws[..n], outcomes);
      } else {
        ExecuteThrowsIff(ranks, ws[..n], outcomes);
        ExecuteIssuedPrefix(ranks, ws[..n], outcomes);
        assert |prev.issued| == n;
      }
    }
  }

  /** Running one more write after a run that did not throw. */
  lemma ExecuteStep(ranks: map<string, Option<int>>, ws: seq<Write>, outcomes: seq<WriteOutcome>, k: nat)
    requires k < |ws| && !Execute(ranks, ws[..k], outcomes).threw
    ensures var prev := Execute(ranks, ws[..k], outcomes);
            var o := OutcomeAt(outcomes, k);
            Execute(ranks, ws[..k + 1], outcomes)
              == Execution(if o == Applied then ApplyWrite(prev.ranks, ws[k]) else prev.ranks,
                           prev.issued + [ws[k]], o == Thrown)
  {
    assert ws[..k + 1][..k] == ws[..k];
  }

  /** The save's write for the post at position `i` follows the clear and the writes before it. */
  lemma SaveStep(ranks: map<string, Option<int>>, trending: seq<Post>, outcomes: seq<WriteOutcome>, i: nat)
    requires i < |trending| && !Execute(ranks, SaveWrites(trending)[..i + 1], outcomes).threw
    ensures var prev := Execute(ranks, SaveWrites(trending)[..i + 1], outcomes);
            var w := SetRank(trending[i].id, trending[i].trendingRank);
            var o := OutcomeAt(outcomes, i + 1);
            Execute(ranks, SaveWrites(trending)[..i + 2], outcomes)
              == Execution(if o == Applied then ApplyWrite(prev.ranks, w) else prev.ranks,
                           prev.issued + [w], o == Thrown)
  {
    ExecuteStep(ranks, SaveWrites(trending), outcomes, i + 1);
  }

  /** Once a write has thrown, later writes are not sent. */
  lemma {:induction false} ExecuteStopsAfterThrow(ranks: map<string, Option<int>>, ws: seq<Write>,
                                                  outcomes: seq<WriteOutcome>, k: nat)
    requires k <= |ws| && Execute(ranks, ws[..k], outcomes).threw
    ensures Execute(ranks, ws, outcomes) == Execute(ranks, ws[..k], outcomes)
    decreases |ws| - k
  {
    if k < |ws| {
      var n := |ws| - 1;
      assert ws[..n][..k] == ws[..k];
      ExecuteStopsAfterThrow(ranks, ws[..n], outcomes, k);
    } else {
      assert ws[..k] == ws;
    }
  }

  /** The rank that the last entry with this id carries, if any. */
  function LastRankFor(trending: seq<Post>, id: string): (r: Option<int>)
    ensures id !in Ids(trending) ==> r == None
  {
    if trending == [] then None
    else
      var n := |trending| - 1;
      if trending[n].id == id then trending[n].trendingRank
      else
        assert Ids(trending[..n]) <= Ids(trending) by {
          forall x | x in Ids(trending[..n]) ensures x in Ids(trending) {
            var p :| p in trending[..n] && p.id == x;
            assert p in trending;
          }
        }
        LastRankFor(trending[..n], id)
  }

  /** With distinct ids, each trending entry's own rank is the one that wins. */
  lemma {:induction false} LastRankForDistinct(trending: seq<Post>, i: nat)
    requires DistinctIds(trending) && i < |trending|
    ensures LastRankFor(trending, trending[i].id) == trending[i].trendingRank
  {
    var n := |trending| - 1;
    if i < n {
      LastRankForDistinct(trending[..n], i);
    }
  }

  /**
   * The store after a save in which every write was applied: every id is left
   * with the rank of its last entry in the trending list, or unranked.
   */
  lemma {:induction false} SaveStateAllApplied(ranks: map<string, Option<int>>, trending: seq<Post>,
                                               outcomes: seq<WriteOutcome>)
    requires forall k :: 0 <= k <= |trending| ==> OutcomeAt(outcomes, k) == Applied
    ensures var e := Execute(ranks, SaveWrites(trending), outcomes);
            !e.threw && forall id :: id in e.ranks ==> e.ranks[id] == LastRankFor(trending, id)
  {
    var ws := SaveWrites(trending);
    var e := Execute(ranks, ws, outcomes);
    if trending == [] {
      assert ws[..0] == [];
      assert Execute(ranks, ws[..0], outcomes) == Execution(ranks, [], false);
    } else {
      var n := |trending| - 1;
      var last := trending[n];
      SaveStateAllApplied(ranks, trending[..n], outcomes);
      var prev := Execute(ranks, SaveWrites(trending[..n]), outcomes);
      assert ws[..n + 1] == SaveWrites(trending[..n]);
      assert ws[n + 1] == SetRank(last.id, last.trendingRank);
      assert e.ranks == ApplyWrite(prev.ranks, SetRank(last.id, last.trendingRank));
      forall id | id in e.ranks ensures e.ranks[id] == LastRankFor(trending, id) {
        if id != last.id {
          assert e.ranks[id] == prev.ranks[id];
        }
      }
    }
  }

  /** A fully applied save leaves exactly the trending posts ranked, each with its in-memory rank. */
  lemma SaveAppliedState(ranks: map<string, Option<int>>, trending: seq<Post>, outcomes: seq<WriteOutcome>)
    requires DistinctIds(trending)
    requires forall k :: 0 <= k < |outcomes| ==> outcomes[k] == Applied
    ensures var e := Execute(ranks, SaveWrites(trending), outcomes);
            && !e.threw
            && e.ranks.Keys == ranks.Keys
            && (forall id :: id in e.ranks && id !in Ids(trending) ==> e.ranks[id] == None)
            && (forall p :: p in trending && p.id in e.ranks ==> e.ranks[p.id] == p.trendingRank)
  {
    SaveStateAllApplied(ranks, trending, outcomes);
    forall p | p in trending ensures LastRankFor(trending, p.id) == p.trendingRank {
      var i :| 0 <= i < |trending| && trending[i] == p;
      LastRankForDistinct(trending, i);
    }
  }

  /** Reported errors do not stop the loop: unless a write throws, every write is sent. */
  lemma SaveSendsAllUnlessThrown(ranks: map<string, Option<int>>, trending: seq<Post>, outcomes: seq<WriteOutcome>)
    requires forall k :: 0 <= k < |outcomes| ==> outcomes[k] != Thrown
    ensures Execute(ranks, SaveWrites(trending), outcomes).issued == SaveWrites(trending)
    ensures !Execute(ranks, SaveWrites(trending), outcomes).threw
  {
    ExecuteThrowsIff(ranks, SaveWrites(trending), outcomes);
    ExecuteIssuedPrefix(ranks, SaveWrites(trending), outcomes);
  }

  /**
   * A failed clear that is only reported still ends in success, with the
   * store holding two posts of rank 1.
   */
  lemma ReportedClearFailureStillSaves()
    ensures var b := Post("b", "B", "News", Some(1));
            var e := Execute(map["a" := Some(1), "b" := Some(2)], SaveWrites([b]), [Reported]);
            !e.threw && e.ranks == map["a" := Some(1), "b" := Some(1)]
  {
    var b := Post("b", "B", "News", Some(1));
    var ranks := map["a" := Some(1), "b" := Some(2)];
    var ws := SaveWrites([b]);
    assert ws == [ClearRanks, SetRank("b", Some(1))];
    assert ws[..1] == [ClearRanks] && ws[..1][..0] == [];
    var cleared := Execute(ranks, ws[..1], [Reported]);
    assert Execute(ranks, [], [Reported]) == Execution(ranks, [], false);
    assert cleared == Execution(ranks, [ClearRanks], false);
    assert ws[..1] == ws[..|ws| - 1];
    assert Execute(ranks, ws, [Reported]).ranks == ApplyWrite(ranks, SetRank("b", Some(1)));
  }

  /**
   * A run whose first rank write throws without reaching the store, right
   * after the clear, leaves no post ranked in the store.
   */
  lemma InterruptedAfterClearLeavesNothingRanked(ranks: map<string, Option<int>>, trending: seq<Post>,
                                                 outcomes: seq<WriteOutcome>)
    requires |trending| > 0 && |outcomes| >= 2
    requires outcomes[0] == Applied && outcomes[1] == Thrown
    ensures var e := Execute(ranks, SaveWrites(trending), outcomes);
            e.threw && |e.issued| == 2 && forall id :: id in e.ranks ==> e.ranks[id] == None
  {
    var ws := SaveWrites(trending);
    assert ws[..2][..1] == ws[..1];
    assert ws[..1][..0] == [];
    assert Execute(ranks, [], outcomes) == Execution(ranks, [], false);
    var cleared := Execute(ranks, ws[..1], outcomes);
    assert cleared == Execution(ApplyWrite(ranks, ClearRanks), [ClearRanks], false);
    var stopped := Execute(ranks, ws[..2], outcomes);
    assert stopped.threw && stopped.ranks == cleared.ranks && |stopped.issued| == 2;
    ExecuteStopsAfterThrow(ranks, ws, outcomes, 2);
  }

  // ---------------------------------------------------------------------------
  // The page state and its handlers
  // ---------------------------------------------------------------------------

  datatype SaveResult = Saved | SaveFailed

  /** The `posts` table as the save sees it: the `trending_rank` column by id. */
  class RankStore {
    var ranks: map<string, Option<int>>
    /** The writes received so far, in order. */
    ghost var issued: seq<Write>

    constructor (ranks0: map<string, Option<int>>)
      ensures ranks == ranks0 && issued == []
    {
      ranks := ranks0;
      issued := [];
    }

    /**
     * One awaited `update`. The `{error}` it resolves to is dropped by the
     * caller, so only a throw is passed back.
     */
    method Update(w: Write, outcome: WriteOutcome) returns (threw: bool)
      modifies this
      ensures ranks == (if outcome == Applied then ApplyWrite(old(ranks), w) else old(ranks))
      ensures issued == old(issued) + [w]
      ensures threw <==> outcome == Thrown
    {
      if outcome == Applied {
        ranks := ApplyWrite(ranks, w);
      }
      issued := issued + [w];
      threw := outcome == Thrown;
    }
  }

  class TrendingEditor {
    var allPosts: seq<Post>
    var trendingPosts: seq<Post>
    var loading: bool
    var saving: bool

    constructor ()
      ensures allPosts == [] && trendingPosts == [] && loading && !saving
    {
      allPosts := [];
      trendingPosts := [];
      loading := true;
      saving := false;
    }

    /** The two lists share no id. */
    predicate Disjoint()
      reads this
    {
      Ids(allPosts) !! Ids(trendingPosts)
    }

    /** The ids held by the page. */
    function HeldIds(): set<string>
      reads this
    {
      Ids(allPosts) + Ids(trendingPosts)
    }

    /** `fetchPosts`: on a failed query nothing changes and the page stays loading. */
    method FetchPosts(fetched: Option<seq<Post>>)
      modifies this
      ensures fetched.None? ==>
                allPosts == old(allPosts) && trendingPosts == old(trendingPosts) && loading == old(loading)
      ensures fetched.Some? ==>
                Lists(allPosts, trendingPosts) == Partition(fetched.value) && !loading
      ensures fetched.Some? && DistinctIds(fetched.value) ==> Disjoint() && HeldIds() == Ids(fetched.value)
      ensures fetched.Some? && DistinctIds(fetched.value) ==> DistinctIds(allPosts) && DistinctIds(trendingPosts)
      ensures saving == old(saving)
    {
      if fetched.None? {
        return;
      }
      var lists := Partition(fetched.value);
      allPosts := lists.untracked;
      trendingPosts := lists.ranked;
      loading := false;
      if DistinctIds(fetched.value) {
        LoadedListsDisjoint(fetched.value);
        LoadedListsDistinct(fetched.value);
      }
    }

    /** `addToTrending`: append with rank `length + 1` and drop the post's id from the untracked list. */
    method AddToTrending(post: Post)
      modifies this
      ensures trendingPosts == old(trendingPosts) + [post.(trendingRank := Some(|old(trendingPosts)| + 1))]
      ensures allPosts == Filter(old(allPosts), HasOtherId(post.id))
      ensures post.id !in Ids(allPosts)
      ensures Contiguous(old(trendingPosts)) ==> Contiguous(trendingPosts)
      ensures old(Disjoint()) && post.id in Ids(old(allPosts)) ==> Disjoint() && HeldIds() == old(HeldIds())
      ensures old(DistinctIds(allPosts)) ==> DistinctIds(allPosts)
      ensures old(DistinctIds(trendingPosts)) && post.id !in Ids(old(trendingPosts)) ==> DistinctIds(trendingPosts)
      ensures loading == old(loading) && saving == old(saving)
    {
      AddKeepsInvariants(allPosts, trendingPosts, post);
      var newRank := |trendingPosts| + 1;
      trendingPosts := trendingPosts + [post.(trendingRank := Some(newRank))];
      allPosts := Filter(allPosts, HasOtherId(post.id));
    }

    /**
     * `removeFromTrending`: the post goes to the end of the untracked list with
     * no rank; the rest of the trending list is renumbered `1..n` in its order.
     */
    method RemoveFromTrending(post: Post)
      modifies this
      ensures allPosts == old(allPosts) + [post.(trendingRank := None)]
      ensures trendingPosts == Renumber(Filter(old(trendingPosts), HasOtherId(post.id)))
      ensures Contiguous(trendingPosts) && post.id !in Ids(trendingPosts)
      ensures old(Disjoint()) && post.id in Ids(old(trendingPosts)) ==> Disjoint() && HeldIds() == old(HeldIds())
      ensures old(DistinctIds(trendingPosts)) ==> DistinctIds(trendingPosts)
      ensures old(DistinctIds(allPosts)) && post.id !in Ids(old(allPosts)) ==> DistinctIds(allPosts)
      ensures loading == old(loading) && saving == old(saving)
    {
      if Disjoint() && post.id in Ids(trendingPosts) {
        RemoveKeepsPartition(allPosts, trendingPosts, post);
      }
      if DistinctIds(trendingPosts) {
        FilterKeepsDistinct(trendingPosts, HasOtherId(post.id));
        RenumberKeepsDistinct(Filter(trendingPosts, HasOtherId(post.id)));
      }
      if DistinctIds(allPosts) && post.id !in Ids(allPosts) {
        DistinctSnoc(allPosts, post.(trendingRank := None));
      }
      FilterIdIds(trendingPosts, post.id);
      RenumberKeepsIds(Filter(trendingPosts, HasOtherId(post.id)));
      allPosts := allPosts + [post.(trendingRank := None)];
      var remaining := Filter(trendingPosts, HasOtherId(post.id));
      trendingPosts := Renumber(remaining);
    }

    /** `moveUp`: at the top nothing changes; otherwise swap with the entry above and renumber. */
    method MoveUp(index: nat)
      requires index < |trendingPosts|
      modifies this
      ensures index == 0 ==> trendingPosts == old(trendingPosts)
      ensures index > 0 ==> trendingPosts == Renumber(SwapAdjacent(old(trendingPosts), index - 1))
      ensures Ids(trendingPosts) == Ids(old(trendingPosts))
      ensures index > 0 ==> Contiguous(trendingPosts)
      ensures DistinctIds(trendingPosts) <==> old(DistinctIds(trendingPosts))
      ensures allPosts == old(allPosts) && loading == old(loading) && saving == old(saving)
    {
      if index == 0 {
        return;
      }
      var newList := new Post[|trendingPosts|](k requires 0 <= k < |trendingPosts| reads this => trendingPosts[k]);
      newList[index - 1], newList[index] := newList[index], newList[index - 1];
      assert newList[..] == SwapAdjacent(trendingPosts, index - 1);
      SwapKeepsIds(trendingPosts, index - 1);
      SwapKeepsDistinct(trendingPosts, index - 1);
      RenumberKeepsIds(newList[..]);
      RenumberKeepsDistinct(newList[..]);
      trendingPosts := Renumber(newList[..]);
    }

    /** `moveDown`: at the bottom nothing changes; otherwise swap with the entry below and renumber. */
    method MoveDown(index: nat)
      requires index < |trendingPosts|
      modifies this
      ensures index == |old(trendingPosts)| - 1 ==> trendingPosts == old(trendingPosts)
      ensures index < |old(trendingPosts)| - 1 ==> trendingPosts == Renumber(SwapAdjacent(old(trendingPosts), index))
      ensures Ids(trendingPosts) == Ids(old(trendingPosts))
      ensures index < |old(trendingPosts)| - 1 ==> Contiguous(trendingPosts)
      ensures DistinctIds(trendingPosts) <==> old(DistinctIds(trendingPosts))
      ensures allPosts == old(allPosts) && loading == old(loading) && saving == old(saving)
    {
      if index == |trendingPosts| - 1 {
        return;
      }
      var newList := new Post[|trendingPosts|](k requires 0 <= k < |trendingPosts| reads this => trendingPosts[k]);
      newList[index], newList[index + 1] := newList[index + 1], newList[index];
      assert newList[..] == SwapAdjacent(trendingPosts, index);
      SwapKeepsIds(trendingPosts, index);
      SwapKeepsDistinct(trendingPosts, index);
      RenumberKeepsIds(newList[..]);
      RenumberKeepsDistinct(newList[..]);
      trendingPosts := Renumber(newList[..]);
    }

    /**
     * `saveChanges`: the clear, then one rank write per trending post in list
     * order. The store's `{error}` results are never looked at; only a throw
     * ends the loop and reports failure.
     */
    method SaveChanges(store: RankStore, outcomes: seq<WriteOutcome>) returns (result: SaveResult)
      modifies this, store
      ensures var e := Execute(old(store.ranks), SaveWrites(trendingPosts), outcomes);
              && store.ranks == e.ranks
              && store.issued == old(store.issued) + e.issued
              && (result == Saved <==> !e.threw)
      ensures DistinctIds(trendingPosts) && (forall k :: 0 <= k < |outcomes| ==> outcomes[k] == Applied) ==>
                && result == Saved
                && (forall p :: p in trendingPosts && p.id in store.ranks ==> store.ranks[p.id] == p.trendingRank)
                && (forall id :: id in store.ranks && id !in Ids(trendingPosts) ==> store.ranks[id] == None)
      ensures allPosts == old(allPosts) && trendingPosts == old(trendingPosts)
      ensures loading == old(loading) && !saving
    {
      saving := true;
      var posts := trendingPosts;
      ghost var ranks0, issued0 := store.ranks, store.issued;
      ghost var ws := SaveWrites(posts);
      assert ws[..0] == [];
      ExecuteStep(ranks0, ws, outcomes, 0);
      var threw := store.Update(ClearRanks, OutcomeAt(outcomes, 0));
      ghost var e := Execute(ranks0, ws[..1], outcomes);
      var i := 0;
      while i < |posts| && !threw
        invariant 0 <= i <= |posts|
        invariant e == Execute(ranks0, ws[..i + 1], outcomes)
        invariant store.ranks == e.ranks && store.issued == issued0 + e.issued && e.threw == threw
        modifies store
      {
        var post := posts[i];
        SaveStep(ranks0, posts, outcomes, i);
        threw := store.Update(SetRank(post.id, post.trendingRank), OutcomeAt(outcomes, i + 1));
        e := Execute(ranks0, ws[..i + 2], outcomes);
        i := i + 1;
      }
      if threw {
        assert Execute(ranks0, ws, outcomes) == e by {
          ExecuteStopsAfterThrow(ranks0, ws, outcomes, i + 1);
        }
        result := SaveFailed;
      } else {
        assert ws[..i + 1] == ws;
        result := Saved;
      }
      if DistinctIds(posts) && forall k :: 0 <= k < |outcomes| ==> outcomes[k] == Applied {
        SaveAppliedState(ranks0, posts, outcomes);
      }
      saving := false;
    }
  }
}

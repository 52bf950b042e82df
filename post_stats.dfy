/**
 * The three counters above the post list (app/posts/page.tsx): the number
 * of posts, of featured posts and of editor's picks among the rows the
 * query returned.
 */
module PostStats {
  import opened Wrappers

  /** A row of the `posts` table; nullable columns are options. */
  datatype PostRow = PostRow(
    id: string,
    title: string,
    slug: string,
    section: string,
    category: string,
    excerpt: Option<string>,
    content: Option<string>,
    imageUrl: Option<string>,
    createdAt: Option<string>,
    isFeatured: Option<bool>,
    isEditorPick: Option<bool>,
    trendingRank: Option<int>)

  /** The two boolean columns that are counted. */
  datatype Flag = Featured | EditorPick

  function FlagOf(row: PostRow, flag: Flag): Option<bool>
  {
    match flag
    case Featured => row.isFeatured
    case EditorPick => row.isEditorPick
  }

  /** The `filter` callback: a nullable boolean is truthy only when it is `true`. */
  predicate IsSet(row: PostRow, flag: Flag)
  {
    FlagOf(row, flag) == Some(true)
  }

  /** `rows.filter(p => p.<flag>)`: the rows whose flag is `true`, in order. */
  function FilterSet(rows: seq<PostRow>, flag: Flag): (r: seq<PostRow>)
    ensures |r| <= |rows|
    ensures forall x :: x in r <==> x in rows && IsSet(x, flag)
  {
    if rows == [] then []
    else (if IsSet(rows[0], flag) then [rows[0]] else []) + FilterSet(rows[1..], flag)
  }

  datatype Stats = Stats(total: nat, featured: nat, editorPicks: nat)

  /** `getStats`. */
  function GetStats(rows: seq<PostRow>): (s: Stats)
    ensures s.total == |rows|
    ensures s.featured <= s.total && s.editorPicks <= s.total
  {
    Stats(|rows|, |FilterSet(rows, Featured)|, |FilterSet(rows, EditorPick)|)
  }

  /** `getStats(posts || [])`: no data counts as no rows. */
  function PageStats(data: Option<seq<PostRow>>): (s: Stats)
    ensures data.None? ==> s == Stats(0, 0, 0)
    ensures data.Some? ==> s == GetStats(data.value)
  {
    GetStats(data.GetOr([]))
  }

  /** Filtering distributes over concatenation. */
  lemma {:induction false} FilterSetAppend(s: seq<PostRow>, t: seq<PostRow>, flag: Flag)
    ensures FilterSet(s + t, flag) == FilterSet(s, flag) + FilterSet(t, flag)
  {
    if s == [] {
      assert s + t == t;
    } else {
      assert (s + t)[1..] == s[1..] + t;
      FilterSetAppend(s[1..], t, flag);
    }
  }

  /** Every row is counted exactly when every row's flag is `true`. */
  lemma {:induction false} FilterSetAll(rows: seq<PostRow>, flag: Flag)
    ensures |FilterSet(rows, flag)| == |rows| <==> forall i :: 0 <= i < |rows| ==> IsSet(rows[i], flag)
  {
    if rows != [] {
      FilterSetAll(rows[1..], flag);
      assert forall i :: 1 <= i < |rows| ==> rows[i] == rows[1..][i - 1];
    }
  }

  /** No row is counted exactly when no row's flag is `true`: `false` and null both count as unset. */
  lemma {:induction false} FilterSetNone(rows: seq<PostRow>, flag: Flag)
    ensures |FilterSet(rows, flag)| == 0 <==> forall i :: 0 <= i < |rows| ==> !IsSet(rows[i], flag)
  {
    if rows != [] {
      FilterSetNone(rows[1..], flag);
      assert forall i :: 1 <= i < |rows| ==> rows[i] == rows[1..][i - 1];
    }
  }

  /** Adding one row raises the total by one and each counter by one exactly when that flag is `true`. */
  lemma AppendRowStats(rows: seq<PostRow>, row: PostRow)
    ensures GetStats(rows + [row]).total == GetStats(rows).total + 1
    ensures GetStats(rows + [row]).featured
              == GetStats(rows).featured + (if row.isFeatured == Some(true) then 1 else 0)
    ensures GetStats(rows + [row]).editorPicks
              == GetStats(rows).editorPicks + (if row.isEditorPick == Some(true) then 1 else 0)
  {
    FilterSetAppend(rows, [row], Featured);
    FilterSetAppend(rows, [row], EditorPick);
  }
}

# Admin dashboard core, modelled in Dafny

This project models the rule-bearing parts of an administrative dashboard for a
content platform. Posts are kept in a hosted database table `posts`. Admins
browse them, create them, curate a "trending" list and change their password.
A request gate guards every route with a session cookie.

The model has one module per source file:

- `SessionGate` (`session_gate.dfy`) is the request gate of `middleware.ts`.
  It classifies a path as public or protected, treats a non-empty
  `admin_session` cookie as a session, and gives the three-way decision:
  allow, redirect to `/login`, or redirect to `/`.
- `Trending` (`trending.dfy`) is the trending editor of
  `app/trending/page.tsx`.
  - Loading partitions the fetched posts into untracked and ranked posts
    and sorts the ranked ones stably by rank.
  - The handlers add, remove and move posts.
  - Saving clears every rank in the store, then writes each trending post's
    rank in list order.
  - The page is a class `TrendingEditor` whose fields are the two lists.
  - The store is a class `RankStore` holding the `id -> trending_rank` column.
  - The answer of each store call is a parameter, in one of three kinds:
    applied, error reported in the result, or thrown.
- `NewPost` (`new_post.dfy`) is the "Create New Post" form of
  `app/posts/new/page.tsx`.
  - It holds the `SECTIONS` and `SECTION_TAGS` tables.
  - Each step of `generateSlug` is one function: lower-casing, trimming,
    removing characters, collapsing separator runs, stripping hyphens, and
    the four-digit clock suffix.
  - The form record is updated by the input, checkbox and URL-section
    handlers.
- `Sidebar` (`sidebar.dfy`) holds the navigation entries of
  `components/admin-sidebar.tsx` and the `isActive` rule that highlights them.
- `Settings` (`settings.dfy`) is the change-password form of
  `app/settings/page.tsx`. It is a class whose fields are the component
  state. The submit handler is split at its `await`: first the client-side
  checks and the request they release, then the handling of the request's
  outcome.
- `PostStats` (`post_stats.dfy`) holds the counters of `app/posts/page.tsx`,
  over the `posts` row shape of `types/supabase.ts`.
- `Wrappers` (`wrappers.dfy`) holds `Option`, and `Strings` (`strings.dfy`)
  holds a raw `startsWith`.

The clock, the database, `fetch` and the browser are not modelled. Their
results enter as parameters:

- a clock reading in milliseconds for the slug;
- the fetched rows, or `None` for a failed query;
- an outcome per store write;
- an outcome for the password request;
- the current path and the `section` query value for the sidebar.

### Behaviour of the code worth knowing

- **Load ranks.** `fetchPosts` only filters and sorts; it does not
  renumber. Ranks none, 3, none, 1 load as D(1), B(3)
  (`Trending.LoadDoesNotRenumber`). A later add then repeats rank 3
  (`Trending.AddAfterGappedLoadRepeatsRank`).
- **Reported write errors.** `saveChanges` awaits each `update` and never
  reads the `{ error }` it resolves to. Only a thrown exception ends the
  loop (`Trending.SaveSendsAllUnlessThrown`). A clear that only reports an
  error is followed by the rank writes, which can leave two posts ranked 1
  (`Trending.ReportedClearFailureStillSaves`).
- **Written ranks.** Each trending post is written with its in-memory
  `trending_rank`, not with its position. After a gapped load the written
  ranks stay gapped until a remove or a move renumbers the list.
- **Adding a post.** `addToTrending` does not check that the post is
  untracked. The model appends in every case, and the list invariants are
  proved for an untracked post.

## Model

| member | source | states |
|---|---|---|
| `SessionGate.IsPublicPath` | middleware.ts:8 | The path is `/login` or starts with `/api/auth`. This predicate has no contract of its own. Its meaning is stated by `PublicPathCharacterised` and `AuthPrefixIsRaw`. |
| `SessionGate.HasSession` | middleware.ts:11 | The `admin_session` cookie value is present and non-empty. This predicate has no contract of its own. Its use is stated by `Middleware` and `EmptyCookieIsNoSession`. |
| `SessionGate.Middleware` | middleware.ts:4-25 | The gate redirects to `/login` exactly when the path is not public and there is no session. It redirects to `/` exactly when the path is `/login` and there is a session. Every other request is allowed, so each request gets exactly one decision. |
| `SessionGate.RedirectTarget` | middleware.ts:15-20 | A redirect to login targets `/login` and a redirect home targets `/`. An allowed request has no target. |
| `SessionGate.PublicPathCharacterised` | middleware.ts:8 | A path is public exactly when it is `/login` or its first nine characters are `/api/auth`. |
| `SessionGate.AuthPrefixIsRaw` | middleware.ts:8 | The prefix test needs no slash: `/api/auth` and `/api/authx` are public. `/api/aut`, `/login/` and `/posts` are not. |
| `SessionGate.PublicNeverRedirectedToLogin` | middleware.ts:8-16 | A public path is never redirected to `/login`, whatever the cookie. |
| `SessionGate.EmptyCookieIsNoSession` | middleware.ts:11-14 | An empty cookie value, which is what logout writes, gets the same decision as a missing cookie, on every path. |
| `SessionGate.SessionOnAuthApiAllowed` | middleware.ts:19-24 | With a session, every path under `/api/auth` (such as logout) is allowed rather than redirected. |
| `SessionGate.DecisionTable` | middleware.ts:14-24 | The decisions for `/login`, `/posts` and `/api/auth/logout`, each with and without a session. |
| `Trending.Filter` | app/trending/page.tsx:38-41 | `filter` keeps exactly the elements its predicate accepts and is no longer than its input. |
| `Trending.FilterConcat` | app/trending/page.tsx:50-55 | Filtering a concatenation is concatenating the filtered parts, so the kept elements keep their order. |
| `Trending.FilterKeepsAll` | app/trending/page.tsx:55 | A filter that accepts every element returns the list unchanged. |
| `Trending.InsertByRank` | app/trending/page.tsx:42 | Inserting into a rank-sorted list keeps it sorted and adds exactly one occurrence of the post. |
| `Trending.SortByRank` | app/trending/page.tsx:42 | The sort with comparator `(a.trending_rank \|\| 0) - (b.trending_rank \|\| 0)` gives a list sorted by that key that is a permutation of its input. |
| `Trending.SortedByRankPairwise` | app/trending/page.tsx:42 | In a list sorted step by step, any earlier entry has a key no larger than any later one. |
| `Trending.FilterSingle` | app/trending/page.tsx:38-41 | A one-element list filters to itself when the predicate accepts the element, and to nothing otherwise. |
| `Trending.InsertByRankStable` | app/trending/page.tsx:42 | Inserting a post moves it only past entries with a smaller key: among the entries of any one key, the order is that of the post followed by the list. |
| `Trending.SortByRankStable` | app/trending/page.tsx:42 | The sort is stable: for every key, the entries with that key appear in the sorted list in their input order. |
| `Trending.Renumber` | app/trending/page.tsx:57-71 | `map((p, i) => ({...p, trending_rank: i + 1}))` keeps the length and every field but the rank, and gives rank `i + 1` at position `i`. |
| `Trending.SwapAdjacent` | app/trending/page.tsx:62-70 | The destructuring swap exchanges exactly the two adjacent entries, leaves every other position alone, and yields a permutation. |
| `Trending.Partition` | app/trending/page.tsx:37-43 | After loading, a fetched post is untracked exactly when it has no rank and ranked exactly when it has one. Every row lands in exactly one list, and the ranked list is sorted by rank. |
| `Trending.FilterPartitionsPosts` | app/trending/page.tsx:38-41 | The two filters together hold exactly the fetched rows, as a multiset. |
| `Trending.LoadedListsDisjoint` | app/trending/page.tsx:38-43 | For rows with distinct ids, the two loaded lists have disjoint id sets whose union is the fetched ids. |
| `Trending.PartitionStable` | app/trending/page.tsx:37-43 | Loading keeps the fetched order of the untracked posts, and the fetched order among ranked posts of equal rank. |
| `Trending.LoadedListsDistinct` | app/trending/page.tsx:37-43 | Rows with distinct ids load into two lists that each have distinct ids. |
| `Trending.LoadDoesNotRenumber` | app/trending/page.tsx:37-43 | Ranks none, 3, none, 1 load as untracked A, C and trending D(1), B(3). These ranks are not contiguous. |
| `Trending.FilterExample` | app/trending/page.tsx:38-41 | The two filters of loading on the rows of the example above. |
| `Trending.SortExample` | app/trending/page.tsx:42 | Two ranked rows that arrive out of rank order are swapped by the sort. |
| `Trending.AddAfterGappedLoadRepeatsRank` | app/trending/page.tsx:48-49 | After the gapped load D(1), B(3), adding a post gives it rank 3, the same rank as B. |
| `Trending.AppendKeepsContiguous` | app/trending/page.tsx:48-49 | Appending with rank `length + 1` turns contiguous ranks `1..n` into `1..n+1`. |
| `Trending.RenumberContiguousIsIdentity` | app/trending/page.tsx:57 | Renumbering a list whose ranks already equal their positions returns the same list. |
| `Trending.RenumberKeepsIds` | app/trending/page.tsx:57-71 | Renumbering keeps the set of ids. |
| `Trending.SwapKeepsIds` | app/trending/page.tsx:62-70 | A swap keeps the set of ids. |
| `Trending.FilterIdIds` | app/trending/page.tsx:50-55 | Filtering with `p.id !== id` removes exactly that id from the id set. |
| `Trending.AppendIds` | app/trending/page.tsx:49-54 | Appending a post adds exactly its id. |
| `Trending.DistinctCons` | app/trending/page.tsx:47-58 | A list with a head has distinct ids exactly when its tail has distinct ids and lacks the head's id. |
| `Trending.DistinctSnoc` | app/trending/page.tsx:49-54 | Appending a post whose id is not in a list with distinct ids keeps the ids distinct. |
| `Trending.FilterKeepsDistinct` | app/trending/page.tsx:38-55 | Every filter keeps distinct ids distinct. |
| `Trending.InsertByRankKeepsDistinct` | app/trending/page.tsx:42 | Inserting a post with a new id into a list with distinct ids keeps the ids distinct. |
| `Trending.SortByRankKeepsDistinct` | app/trending/page.tsx:42 | Sorting keeps distinct ids distinct. |
| `Trending.RenumberKeepsDistinct` | app/trending/page.tsx:57-71 | Renumbering keeps the ids distinct, and only a list with distinct ids renumbers to one. |
| `Trending.SwapKeepsDistinct` | app/trending/page.tsx:62-70 | Swapping two neighbours keeps the ids distinct, and only a list with distinct ids swaps to one. |
| `Trending.AddKeepsInvariants` | app/trending/page.tsx:47-51 | Adding removes the post's id from the untracked list. It keeps each list's ids distinct, for a post not yet trending. It keeps ranks contiguous, and for an untracked post it keeps the lists disjoint with the same ids. |
| `Trending.AddKeepsPartition` | app/trending/page.tsx:47-51 | Adding an untracked post keeps the two lists' id sets disjoint with an unchanged union. |
| `Trending.RemoveKeepsPartition` | app/trending/page.tsx:53-58 | Removing a trending post keeps the two lists' id sets disjoint with an unchanged union. |
| `Trending.AddThenRemoveRestoresTrending` | app/trending/page.tsx:47-58 | For a contiguous trending list, adding a post that is not in it and then removing that post gives back the same list. |
| `Trending.ApplyWrite` | app/trending/page.tsx:78-88 | The clear nulls every rank. A rank write changes only the row with that id, and a missing id changes nothing. The set of rows never changes. |
| `Trending.SaveWrites` | app/trending/page.tsx:77-89 | The save sends the clear first, then one rank write per trending post in list order, each carrying that post's id and in-memory rank. |
| `Trending.Execute` | app/trending/page.tsx:76-96 | Running the writes one after another never adds or drops store rows. |
| `Trending.ExecuteIssuedPrefix` | app/trending/page.tsx:84-89 | The writes sent are a prefix of the save's writes, and all of them when none threw. |
| `Trending.ExecuteThrowsIff` | app/trending/page.tsx:76-95 | A save ends early exactly when one of its writes throws. |
| `Trending.ExecuteThrowsOnlyAtThrown` | app/trending/page.tsx:76-95 | When a save ends early, the last write sent is the first one that threw. |
| `Trending.ExecuteStep` | app/trending/page.tsx:84-89 | When no write has thrown yet, sending the next write applies it according to its outcome and appends it to the writes sent. |
| `Trending.SaveStep` | app/trending/page.tsx:84-89 | The rank write for the post at position `i` comes right after the clear and the writes before it. |
| `Trending.ExecuteStopsAfterThrow` | app/trending/page.tsx:76-95 | Once a write has thrown, no later write is sent and the store stays as it was. |
| `Trending.LastRankFor` | app/trending/page.tsx:84-89 | An id that is not trending has no last rank. |
| `Trending.LastRankForDistinct` | app/trending/page.tsx:84-89 | With distinct ids, each trending post's own rank is the one written last for its id. |
| `Trending.SaveStateAllApplied` | app/trending/page.tsx:77-89 | A save whose writes are all applied does not throw, and leaves every row with the rank of its last trending entry, or with no rank. |
| `Trending.SaveAppliedState` | app/trending/page.tsx:77-89 | After a save with no failure, every row outside the trending list has no rank, each trending post has its in-memory rank, and no row was added. |
| `Trending.SaveSendsAllUnlessThrown` | app/trending/page.tsx:77-89 | Reported errors do not stop the loop: unless a write throws, every write is sent and the save succeeds. |
| `Trending.ReportedClearFailureStillSaves` | app/trending/page.tsx:77-92 | If the clear only reports an error, the save still ends as a success, and the store then holds two posts of rank 1. |
| `Trending.InterruptedAfterClearLeavesNothingRanked` | app/trending/page.tsx:77-89 | A save whose first rank write throws without reaching the store leaves the store with no ranked post. |
| `Trending.RankStore.constructor` | app/trending/page.tsx:77-89 | The store starts with the given rank column and no writes received. |
| `Trending.RankStore.Update` | app/trending/page.tsx:78-88 | One update changes the column only when it is applied, records the write, and passes back only whether it threw. A write that throws is taken not to have reached the store. |
| `Trending.TrendingEditor.constructor` | app/trending/page.tsx:17-20 | The page starts with both lists empty, loading, and not saving. |
| `Trending.TrendingEditor.FetchPosts` | app/trending/page.tsx:26-45 | A failed query changes nothing. Otherwise the lists become the partition of the rows and loading ends. For rows with distinct ids, each list has distinct ids, the lists are disjoint, and together they hold the fetched ids. |
| `Trending.TrendingEditor.AddToTrending` | app/trending/page.tsx:47-51 | The post is appended with rank `old length + 1` and every entry with its id leaves the untracked list. Contiguous ranks stay contiguous. The untracked list keeps distinct ids. The trending list keeps distinct ids when the post was not in it. For an untracked post, disjointness and the held ids are kept. |
| `Trending.TrendingEditor.RemoveFromTrending` | app/trending/page.tsx:53-58 | The post is appended to the untracked list with no rank. The rest keep their order with ranks `1..n`. The trending list keeps distinct ids. The untracked list keeps distinct ids when the post was not in it. For a trending post, disjointness and the held ids are kept. |
| `Trending.TrendingEditor.MoveUp` | app/trending/page.tsx:60-65 | At index 0 nothing changes. Otherwise the entry swaps with the one above, and the list is renumbered `1..n` with the same ids, distinct exactly when they were before. |
| `Trending.TrendingEditor.MoveDown` | app/trending/page.tsx:67-72 | At the last index nothing changes. Otherwise the entry swaps with the one below, and the list is renumbered `1..n` with the same ids, distinct exactly when they were before. |
| `Trending.TrendingEditor.SaveChanges` | app/trending/page.tsx:74-99 | The store ends as the writes of the save leave it, having received exactly the writes sent. The result is success exactly when no write threw. When the trending ids are distinct and every write is applied, the save succeeds, each trending post's row holds its rank and every other row holds none. The lists are unchanged and saving ends. |
| `NewPost.LowerChar` | app/posts/new/page.tsx:51 | An ASCII capital becomes the letter 32 code points above it. U+0130 becomes `i` followed by U+0307, and U+212A becomes `k`. Every other character is kept. No result holds an ASCII capital. |
| `NewPost.Lower` | app/posts/new/page.tsx:51 | A lower-cased title has no ASCII capital. The empty title stays empty, and a one-character title lower-cases by `LowerChar`. |
| `NewPost.RunEnd` | app/posts/new/page.tsx:52-55 | The match of a leading run ends at the first character outside the class. |
| `NewPost.RunStart` | app/posts/new/page.tsx:52-55 | The match of a trailing run starts after the last character outside the class. |
| `NewPost.Trim` | app/posts/new/page.tsx:52 | A trimmed string neither starts nor ends with `\s`. |
| `NewPost.RemoveUnkept` | app/posts/new/page.tsx:53 | `replace(/[^\w\s-]/g, "")` keeps exactly the word, space and hyphen characters, and keeps a capital-free string free of capitals. A one-character string is kept or emptied by whether its character is kept. |
| `NewPost.CollapseSeparators` | app/posts/new/page.tsx:54 | `replace(/[\s_-]+/g, "-")` leaves no two hyphens in a row and maps kept lower-case text to slug characters. A leading separator run becomes one hyphen. |
| `NewPost.StripHyphens` | app/posts/new/page.tsx:55 | `replace(/^-+\|-+$/g, "")` leaves no hyphen at either end. |
| `NewPost.LowerAppend` | app/posts/new/page.tsx:51 | Lower-casing works character by character: the lower case of a concatenation is the concatenation of the lower cases. |
| `NewPost.RemoveUnkeptAppend` | app/posts/new/page.tsx:53 | The removal works character by character: removing from a concatenation is concatenating the removals. |
| `NewPost.RunEndIs` | app/posts/new/page.tsx:52-55 | A leading run that stops at a given position ends there. |
| `NewPost.DropBothIsInfix` | app/posts/new/page.tsx:52-55 | Dropping runs from both ends leaves a contiguous part of the input, with only matching characters outside it. |
| `NewPost.TrimRemovesOnlyEdgeSpace` | app/posts/new/page.tsx:52 | `trim` returns a contiguous part of its input and removes only `\s` characters, all at the two ends. |
| `NewPost.StripRemovesOnlyEdgeHyphens` | app/posts/new/page.tsx:55 | The hyphen strip returns a contiguous part of its input and removes only hyphens, all at the two ends. |
| `NewPost.CollapseKeepsOther` | app/posts/new/page.tsx:54 | A character that is not a separator passes the collapsing step unchanged. |
| `NewPost.CollapseRun` | app/posts/new/page.tsx:54 | A whole run of separators, however long, becomes exactly one hyphen. |
| `NewPost.LowerExample` | app/posts/new/page.tsx:51 | `Hi U!` lower-cases to `hi u!`. |
| `NewPost.RemoveUnkeptLast` | app/posts/new/page.tsx:53 | After kept characters, a final character that is not kept is the only one removed. |
| `NewPost.RemoveUnkeptExample` | app/posts/new/page.tsx:53 | `hi u!` loses its `!`. |
| `NewPost.TrimExample` | app/posts/new/page.tsx:52 | `hi u!` has no white space at its ends and is trimmed to itself. |
| `NewPost.CollapseExample` | app/posts/new/page.tsx:54 | The space of `hi u` becomes a hyphen. |
| `NewPost.StripExample` | app/posts/new/page.tsx:55 | `hi-u` keeps its inner hyphen. |
| `NewPost.SlugBaseExample` | app/posts/new/page.tsx:50-55 | The title `Hi U!` has the slug base `hi-u`. |
| `NewPost.TrimKeepsNoUpper` | app/posts/new/page.tsx:51-52 | Trimming a capital-free string keeps it capital-free. |
| `NewPost.StripKeepsSlug` | app/posts/new/page.tsx:55 | Stripping hyphens keeps slug characters and the absence of double hyphens. |
| `NewPost.SlugBaseWellFormed` | app/posts/new/page.tsx:50-55 | For every title, the slug base holds only `a-z`, `0-9` and `-`, never two hyphens in a row, and no hyphen at either end. |
| `NewPost.SlugBase` | app/posts/new/page.tsx:50-55 | The five string steps of `generateSlug` in their order. This function has no contract of its own. Its properties are stated by `SlugBaseWellFormed`, `SlugBaseIdempotent` and `SlugBaseExample`. |
| `NewPost.GenerateSlug` | app/posts/new/page.tsx:49-56 | The slug base, a hyphen, and the last four characters of the clock reading in decimal. This function has no contract of its own. Its properties are stated by `SlugShape` and `GenerateSlugExample`. |
| `NewPost.LowerOfSlugChars` | app/posts/new/page.tsx:51 | Slug characters are their own lower case. |
| `NewPost.RemoveUnkeptOfKept` | app/posts/new/page.tsx:53 | A string of kept characters is left as it is by the removal step. |
| `NewPost.CollapseOfSlug` | app/posts/new/page.tsx:54 | Slug characters without double hyphens are left as they are by the collapsing step. |
| `NewPost.SlugBaseOfSlug` | app/posts/new/page.tsx:50-55 | A well-formed slug base is its own normal form. |
| `NewPost.SlugBaseIdempotent` | app/posts/new/page.tsx:50-55 | Normalising a title twice gives the same base as normalising it once. |
| `NewPost.DigitChar` | app/posts/new/page.tsx:55 | A digit value below ten is written as a decimal digit character. |
| `NewPost.DigitValue` | app/posts/new/page.tsx:55 | A digit character denotes a value below ten. |
| `NewPost.DecimalString` | app/posts/new/page.tsx:55 | `toString()` of a number gives a non-empty digit string with no leading zero unless the number is 0. |
| `NewPost.DecimalRoundTrip` | app/posts/new/page.tsx:55 | Reading back the decimal string of a number gives the number. |
| `NewPost.DecimalLength` | app/posts/new/page.tsx:55 | A number of at least 1000 has at least four decimal digits. |
| `NewPost.LastFour` | app/posts/new/page.tsx:55 | `slice(-4)` gives the last four characters, or the whole of a shorter string. |
| `NewPost.LastFourValue` | app/posts/new/page.tsx:55 | The last four of at least four digits denote the whole value modulo 10000. |
| `NewPost.TimestampSuffix` | app/posts/new/page.tsx:55 | For a clock reading of at least 1000, the suffix is four digits denoting `now % 10000`. |
| `NewPost.DecimalLastDigit` | app/posts/new/page.tsx:55 | The last character of a decimal string is the value's last digit. |
| `NewPost.DecimalLastThree` | app/posts/new/page.tsx:55 | A number of at least 1000 is written as the digits of its thousands followed by its hundreds, tens and units digits. |
| `NewPost.LastFourOfJoin` | app/posts/new/page.tsx:55 | `slice(-4)` of a string followed by three characters is the string's last character and those three. |
| `NewPost.TimestampDigits` | app/posts/new/page.tsx:55 | For a clock reading of at least 1000, the suffix is its thousands, hundreds, tens and units digits, character by character. |
| `NewPost.TimestampExample` | app/posts/new/page.tsx:55 | At the clock reading 1700000004567 the suffix is `4567`. |
| `NewPost.GenerateSlugExample` | app/posts/new/page.tsx:49-56 | `Hi U!` at the clock reading 1700000004567 gives the slug `hi-u-4567`. |
| `NewPost.JoinExample` | app/posts/new/page.tsx:56 | The base `hi-u` and suffix `4567` join to `hi-u-4567`. |
| `NewPost.SlugShape` | app/posts/new/page.tsx:49-56 | The slug is the base, a `-`, and four digits denoting `now % 10000`. An empty base gives the five characters `-dddd`. |
| `NewPost.SectionTablesAgree` | app/posts/new/page.tsx:12-19 | The tag table has an entry for exactly the four sections, and each entry offers a tag. |
| `NewPost.FirstTags` | app/posts/new/page.tsx:14-19 | The first tag of `News` is `Bitcoin`, of `Markets` `Market Release`, of `Top` `Coins`, and of `Press Release` `Press Release`. |
| `NewPost.InitialForm` | app/posts/new/page.tsx:27-36 | The form starts with empty text fields, section `News` with its first tag `Bitcoin`, and both flags off. |
| `NewPost.InputChange` | app/posts/new/page.tsx:58-73 | A section outside the tag table fails, as the lookup throws. Otherwise the named field takes the value and every other field is kept. A section change also sets the category to the section's first tag, which is one of its tags. |
| `NewPost.CheckboxChange` | app/posts/new/page.tsx:75-78 | Only the named flag changes. Every other flag and text field is kept. |
| `NewPost.InitFromUrl` | app/posts/new/page.tsx:38-47 | A URL section that is one of the sections is applied together with its first tag. Any other value, or none, leaves the form as it is. |
| `NewPost.UrlSectionIsSectionChange` | app/posts/new/page.tsx:40-69 | Taking a section from the URL has the same effect as choosing it in the section menu. |
| `NewPost.DefaultsWithoutUrlSection` | app/posts/new/page.tsx:31-40 | Without a usable URL section, the form keeps `News` and `Bitcoin`. |
| `NewPost.CategoryStaysInSection` | app/posts/new/page.tsx:14-78 | The category stays one of the chosen section's tags from the start and across every edit: a URL section, any input change whose category comes from the offered tags, and any checkbox. |
| `Sidebar.NavItemsListed` | components/admin-sidebar.tsx:8-17 | The seven entries in display order, each with its `href` and label. Each section entry's `href` is its stored path followed by `?section=` and its section; the other entries' `href` is their path. |
| `Sidebar.SectionEntryAgrees` | components/admin-sidebar.tsx:10-13 | A section entry's `href` is `/posts` followed by `?section=` and the section. |
| `Sidebar.IsActive` | components/admin-sidebar.tsx:53-65 | The highlight rule of one entry. This function has no contract of its own. Its meaning is stated by `SectionEntryRule`, `AllPostsRule` and `PrefixRule`. |
| `Sidebar.SectionEntryRule` | components/admin-sidebar.tsx:54-57 | A section entry on `/posts` is active exactly when the `section` parameter equals its section. |
| `Sidebar.AllPostsRule` | components/admin-sidebar.tsx:54-61 | "All Posts" on `/posts` is active exactly when the `section` parameter is absent or empty. |
| `Sidebar.PrefixRule` | components/admin-sidebar.tsx:62-65 | Away from its own path, an entry is active exactly when the path starts with its `href`. |
| `Sidebar.NoQueryPrefix` | components/admin-sidebar.tsx:10-64 | A path without `?` never starts with an `href` that has a query. |
| `Sidebar.AtMostOneActiveOnPosts` | components/admin-sidebar.tsx:8-65 | On `/posts`, at most one entry is active, so "All Posts" and a section entry are never active together. |
| `Sidebar.OneActiveOnPosts` | components/admin-sidebar.tsx:8-61 | On `/posts`, some entry is active when the parameter is absent, empty, or one of the four sections. |
| `Sidebar.SectionEntriesOnlyOnPosts` | components/admin-sidebar.tsx:10-65 | On any other path without a query, no section entry is active, and "All Posts" is active exactly when the path starts with `/posts`. |
| `Sidebar.ActivePageEntryFixesPath` | components/admin-sidebar.tsx:9-65 | An active "All Posts", "Trending" or "Settings" entry fixes the second character of the path. |
| `Sidebar.AtMostOneActive` | components/admin-sidebar.tsx:8-65 | On every path without a query, at most one entry is active. |
| `Sidebar.PageEntryExamples` | components/admin-sidebar.tsx:14-65 | A truthy `section` parameter switches "Trending" off on `/trending`, and "Settings" is active on `/settings/profile`. `/posts/new` and `/postsx` activate "All Posts". |
| `Settings.Utf16Length` | app/settings/page.tsx:27 | `length` counts UTF-16 code units: between the number of characters and twice that, and equal to it for text in the Basic Multilingual Plane. One character counts 1 below U+10000 and 2 from there on. |
| `Settings.Utf16LengthAppend` | app/settings/page.tsx:27 | The code-unit length of a concatenation is the sum of the parts' lengths. |
| `Settings.ValidationError` | app/settings/page.tsx:21-31 | There is no error exactly when the passwords match and the new one is at least 6 code units long. A mismatch is reported first, then the length message. |
| `Settings.FailureMessage` | app/settings/page.tsx:40-52 | A thrown exception shows its own message. A failed response shows its non-empty `error` field, or else "Failed to change password". |
| `Settings.SixCharactersPass` | app/settings/page.tsx:27 | Six characters pass validation and five do not. |
| `Settings.AstralCharactersCountTwice` | app/settings/page.tsx:27 | Three emoji, six code units, pass the length check. |
| `Settings.SettingsForm.constructor` | app/settings/page.tsx:8-13 | The form starts with empty fields, not loading, no error and no success. |
| `Settings.SettingsForm.SetCurrentPassword` | app/settings/page.tsx:95 | Only the current-password field changes. |
| `Settings.SettingsForm.SetNewPassword` | app/settings/page.tsx:106 | Only the new-password field changes. |
| `Settings.SettingsForm.SetConfirmPassword` | app/settings/page.tsx:117 | Only the confirmation field changes. |
| `Settings.SettingsForm.BeginSubmit` | app/settings/page.tsx:15-38 | The submit clears success, and the error becomes the validation message or "". A request carrying the current and new password is released exactly when validation passes. Loading stays on only then, and the password fields are untouched. |
| `Settings.SettingsForm.FinishSubmit` | app/settings/page.tsx:40-55 | Loading ends. An ok response sets success and resets the three fields to "". A failure shows its message and keeps the fields. |
| `Settings.Submit` | app/settings/page.tsx:15-56 | A request is sent exactly when validation passes, and loading ends. A failed check shows its message without success. An ok response shows success with no error and clears all three fields. A failed request shows the failure message without success. After a failed check or a failed request, all three fields keep their values. |
| `PostStats.FilterSet` | app/posts/page.tsx:17-18 | The filter keeps exactly the rows whose flag is `true`; `false` and null are dropped. |
| `PostStats.GetStats` | app/posts/page.tsx:14-20 | `total` is the number of rows, and both counters are at most `total`. |
| `PostStats.PageStats` | app/posts/page.tsx:44 | No data gives all-zero stats; otherwise the stats are those of the rows. |
| `PostStats.FilterSetAppend` | app/posts/page.tsx:17-18 | Filtering distributes over concatenation. |
| `PostStats.FilterSetAll` | app/posts/page.tsx:16-18 | A counter equals the number of rows exactly when every row's flag is `true`. |
| `PostStats.FilterSetNone` | app/posts/page.tsx:17-18 | A counter is 0 exactly when no row's flag is `true`. |
| `PostStats.AppendRowStats` | app/posts/page.tsx:16-18 | One more row raises the total by one, and raises each counter by one exactly when that flag is `true`. |
| `Wrappers.Option.GetOr` | app/posts/page.tsx:44 | `posts \|\| []`: the value when there is one, otherwise the default. |

## Left out

- **Database.** The client calls (`select`, `update`, `insert`) and the network are not modelled. Fetched rows, store answers and the password request's outcome are parameters.
- **React and browser.** State batching, re-rendering, `router.refresh`/`push`, `alert`, `console.error` and the rendered markup are not modelled. A handler's state updates are applied at once, in order.
- **Transport.** Each trending write is modelled as resolving in order. Concurrent saves and stale closures over the lists are not modelled.
- **Post submit.** `handleSubmit` of the new-post form (the insert), the rich-text `content` callback and the `image_url` upload callback (app/posts/new/page.tsx:171, 227) are I/O around the form. They set one field each and are not modelled.
- **Other files.** The auth API routes, the image upload, the events pages, the header search, the layouts and `check_dep.js` are outside the core. The logout route's empty cookie value is covered by `SessionGate.EmptyCookieIsNoSession`.
- **Route matcher.** The middleware `matcher` regular expression (middleware.ts:37) is routing configuration and is not modelled. The gate is modelled for every path.
- **Section filter.** The `section` filter term of the post-list query (app/posts/page.tsx:31-33) belongs to the database query. The stats are stated for whatever rows it returns.
- **Note on naming.** `Trending.Post` and `PostStats.PostRow` are the two row shapes the pages select. `Sidebar.NavItem` calls the `label` field `caption`, because `label` is a Dafny keyword.
- Trending.RankStore.Update: a write whose call throws is taken never to have reached the store. A write the database applied before the call failed on the client side (a network failure after the request was sent, say) is not modelled, so `InterruptedAfterClearLeavesNothingRanked` holds under that assumption.
- Trending.Post: ranks are taken to be integers, as the `trending_rank` column stores them. Fractional or non-finite ranks, which the sort comparator would subtract as JavaScript numbers, are not modelled.
- NewPost.LowerChar: lower-cases only ASCII, U+0130 and U+212A and keeps every other character. Full Unicode lower-casing is not modelled. Every other character whose lower case differs lower-cases to non-ASCII text, which the next steps remove from the slug as they remove the character itself.
- NewPost.InputChange: a section value that happens to be an inherited object key such as `constructor` is treated like any other unknown section, as a failure. In JavaScript that lookup yields a value and the category becomes `undefined`.
- Settings.FailureMessage: a non-string `error` field is not modelled. Its text form would be shown.
- NewPost.TimestampSuffix: states the four-digit suffix for clock readings of at least 1000, which covers every real `Date.now()`. Negative and fractional clock values are not modelled.

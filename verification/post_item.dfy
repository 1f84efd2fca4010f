/** One entry of the post list (app/board/PostItem.tsx): the content snippet, the "edited"
    suffix, the choice between an absolute and a relative creation date, and the author name
    with its placeholder. Date formatting itself is the date library's: formatted strings
    are inputs here. */
module PostItem {
  import opened Common
  import opened Text
  import Board

  // ---------------------------------------------------------------------------------------
  // Content snippet
  // ---------------------------------------------------------------------------------------

  const SnippetLength := 80
  const Ellipsis := "..."

  /** `content.slice(0, 80)` followed by `"..."` when the content is longer than 80
      characters; empty content gives an empty snippet. */
  function ContentSnippet(content: string): (snippet: string)
    ensures content == "" ==> snippet == ""
    ensures |content| <= SnippetLength ==> snippet == content
    ensures |content| > SnippetLength ==> snippet == content[..SnippetLength] + Ellipsis
    ensures |snippet| <= SnippetLength + |Ellipsis|
  {
    var suffix := if |content| > SnippetLength then Ellipsis else "";
    if content == "" then "" else content[..Min(SnippetLength, |content|)] + suffix
  }

  function Min(a: int, b: int): int
  {
    if a <= b then a else b
  }

  /** Snippets are fixed points: cutting a snippet again leaves it as it is, since a cut
      snippet is exactly 83 characters whose first 80 are the kept prefix. */
  lemma {:induction false} SnippetIdempotent(content: string)
    ensures ContentSnippet(ContentSnippet(content)) == ContentSnippet(content)
  {
    var s := ContentSnippet(content);
    if |content| > SnippetLength {
      assert |s| == SnippetLength + 3;
      assert s[..SnippetLength] == content[..SnippetLength];
    }
  }

  /** The snippet always begins with the content's first (up to) 80 characters. */
  lemma SnippetKeepsPrefix(content: string)
    ensures content[..Min(SnippetLength, |content|)] <= ContentSnippet(content)
  {
  }

  // ---------------------------------------------------------------------------------------
  // Edited suffix and creation date
  // ---------------------------------------------------------------------------------------

  const EditedLabel := " | 수정됨 "

  /** `updatedTime`: the "edited" suffix, shown when an update time is present (truthy) and
      differs from the creation time. `updatedAgo` is the library's relative rendering of
      the update time. */
  function EditedSuffix(createdAt: string, updatedAt: Option<string>, updatedAgo: string)
    : (suffix: string)
    ensures suffix != "" <==> Truthy(updatedAt) && updatedAt.value != createdAt
    ensures suffix != "" ==> EditedLabel <= suffix
  {
    if Truthy(updatedAt) && updatedAt.value != createdAt then EditedLabel + updatedAgo else ""
  }

  const MillisPerDay := 86400000

  /** How the creation time is shown: as the UTC calendar day (`toISOString().slice(0, 10)`,
      kept here as the day number since the epoch), or as relative text ("3 hours ago"). */
  datatype CreatedLabel = IsoDate(epochDay: int) | TimeAgo(text: string)

  /** `formattedCreatedAt`: the absolute date once the post is more than a day old. */
  function FormattedCreatedAt(createdMs: int, nowMs: int, timeAgo: string)
    : (shown: CreatedLabel)
    ensures shown.IsoDate? <==> createdMs < nowMs - MillisPerDay
    ensures shown.IsoDate? ==> shown.epochDay == createdMs / MillisPerDay
    ensures shown.TimeAgo? ==> shown.text == timeAgo
  {
    if createdMs < nowMs - MillisPerDay then IsoDate(createdMs / MillisPerDay)
    else TimeAgo(timeAgo)
  }

  /** An absolute date is never today's: it is strictly before the current UTC day. */
  lemma {:induction false} IsoDateIsBeforeToday(createdMs: int, nowMs: int, timeAgo: string)
    requires FormattedCreatedAt(createdMs, nowMs, timeAgo).IsoDate?
    ensures FormattedCreatedAt(createdMs, nowMs, timeAgo).epochDay < nowMs / MillisPerDay
  {
    var d := MillisPerDay;
    var cd, nd := createdMs / d, nowMs / d;
    assert cd * d <= createdMs;
    assert nowMs < nd * d + d;
    assert (nd - cd) * d > 0;
  }

  // ---------------------------------------------------------------------------------------
  // Author name
  // ---------------------------------------------------------------------------------------

  const UnknownAuthor := "알 수 없음"

  /** The author's name after the user lookup: it is only requested for a truthy user id,
      and a failed lookup leaves the name unset. `lookup` is `None` while no answer has
      arrived. */
  function AuthorNameAfterLookup(userId: string, lookup: Option<Outcome<string>>)
    : (name: Option<string>)
    ensures name.Some? <==> userId != "" && lookup.Some? && lookup.value.Resolved?
    ensures name.Some? ==> name.value == lookup.value.value
  {
    if userId != "" && lookup.Some? && lookup.value.Resolved? then Some(lookup.value.value)
    else None
  }

  /** `authorName || "알 수 없음"`. */
  function AuthorLabel(authorName: Option<string>): (text: string)
    ensures Truthy(authorName) ==> text == authorName.value
    ensures !Truthy(authorName) ==> text == UnknownAuthor
    ensures text != ""
  {
    if Truthy(authorName) then authorName.value else UnknownAuthor
  }

  // ---------------------------------------------------------------------------------------
  // The two layouts
  // ---------------------------------------------------------------------------------------

  datatype Post = Post(
    id: string, title: string, createdAt: string, updatedAt: Option<string>, userId: string,
    content: string)

  /** What an entry shows, in either layout: the highlighted title, the highlighted snippet,
      the author label, and the date line. */
  datatype ItemView = ItemView(
    searchLayout: bool, link: string, title: Board.Highlighted, snippet: Board.Highlighted,
    author: string, created: CreatedLabel, edited: string)

  /** Both layouts of `PostItem`; they differ in arrangement only. The rendering clock and
      the library's relative texts are inputs. */
  function RenderItem(
    post: Post, searchTerm: string, isSearchResult: bool, authorName: Option<string>,
    createdMs: int, nowMs: int, createdAgo: string, updatedAgo: string)
    : (view: ItemView)
    requires Board.IsLiteralTerm(searchTerm)
    ensures view.searchLayout == isSearchResult
    ensures view.link == "/board/" + post.id
    ensures Board.Displayed(view.title) == post.title
    ensures Board.Displayed(view.snippet) == ContentSnippet(post.content)
    ensures view.author == UnknownAuthor <==> !Truthy(authorName) || authorName.value == UnknownAuthor
  {
    ItemView(
      isSearchResult, "/board/" + post.id,
      Board.HighlightText(post.title, searchTerm),
      Board.HighlightText(ContentSnippet(post.content), searchTerm),
      AuthorLabel(authorName),
      FormattedCreatedAt(createdMs, nowMs, createdAgo),
      EditedSuffix(post.createdAt, post.updatedAt, updatedAgo))
  }

  /** The search layout and the default layout show the same author label, snippet and
      dates; only the arrangement differs. */
  lemma LayoutsAgree(
    post: Post, searchTerm: string, authorName: Option<string>,
    createdMs: int, nowMs: int, createdAgo: string, updatedAgo: string)
    requires Board.IsLiteralTerm(searchTerm)
    ensures var a := RenderItem(post, searchTerm, true, authorName, createdMs, nowMs, createdAgo, updatedAgo);
      var b := RenderItem(post, searchTerm, false, authorName, createdMs, nowMs, createdAgo, updatedAgo);
      a.(searchLayout := false) == b
  {
  }

  /** The lookup and the fallback together: the entry names its author only after a
      resolved lookup of a truthy user id that returned a non-empty name; while the lookup
      is pending, after it failed, or for an empty user id it shows the placeholder. */
  lemma AuthorShownAfterLookup(userId: string, lookup: Option<Outcome<string>>)
    ensures AuthorLabel(AuthorNameAfterLookup(userId, lookup)) ==
      if userId != "" && lookup.Some? && lookup.value.Resolved? && lookup.value.value != ""
      then lookup.value.value else UnknownAuthor
  {
  }

  /** A post whose update time is missing, empty, or equal to its creation time is shown
      without the "edited" suffix, in either layout; any other update time shows it. */
  lemma UneditedPostHasNoSuffix(
    post: Post, searchTerm: string, isSearchResult: bool, authorName: Option<string>,
    createdMs: int, nowMs: int, createdAgo: string, updatedAgo: string)
    requires Board.IsLiteralTerm(searchTerm)
    ensures var v := RenderItem(post, searchTerm, isSearchResult, authorName, createdMs, nowMs,
                                createdAgo, updatedAgo);
      v.edited == "" <==> post.updatedAt.None? || post.updatedAt == Some("") ||
                          post.updatedAt == Some(post.createdAt)
  {
  }
}

/** The post list (app/board/Board.tsx): search-term highlighting, the conversion of
    backend post records into the list's view records, and the guard on "create post". */
module Board {
  import opened Common
  import opened Text

  // ---------------------------------------------------------------------------------------
  // Search-term highlighting
  // ---------------------------------------------------------------------------------------

  /** Characters that carry meaning inside a JavaScript regular expression. */
  predicate IsRegexMeta(c: char)
  {
    c in "\\^$.|?*+()[]{}"
  }

  /** A search term the regular expression `(term)` matches literally. */
  predicate IsLiteralTerm(term: string)
  {
    forall i :: 0 <= i < |term| ==> !IsRegexMeta(term[i])
  }

  /** The case-insensitive expression `(term)` matches `s` at index `i`. */
  predicate MatchesAt(s: string, i: int, term: string)
  {
    0 <= i && i + |term| <= |s| && EqualsIgnoreCase(s[i..i + |term|], term)
  }

  /** No match of `term` starts inside `piece`, searching the text `rest` that `piece` opens. */
  predicate NoMatchStartsIn(piece: string, rest: string, term: string)
  {
    forall j :: 0 <= j < |piece| ==> !MatchesAt(rest, j, term)
  }

  function Concat(pieces: seq<string>): string
  {
    if pieces == [] then "" else pieces[0] + Concat(pieces[1..])
  }

  /** `text.split(/(term)/gi)`, scanning from the front: `pending` is the unmatched text
      since the last match. Each match closes the pending piece and is itself kept, since the
      expression captures it. */
  function SplitFrom(text: string, term: string, pending: string): seq<string>
    requires term != []
    decreases |text|
  {
    if |text| < |term| then [pending + text]
    else if EqualsIgnoreCase(text[..|term|], term) then
      [pending, text[..|term|]] + SplitFrom(text[|term|..], term, "")
    else SplitFrom(text[1..], term, pending + [text[0]])
  }

  /** The pieces of `text.split(/(term)/gi)`. */
  function SplitByTerm(text: string, term: string): (pieces: seq<string>)
    requires term != []
    ensures IsSplitOf(pieces, text, term)
  {
    SplitFromIsSplit(text, term, "");
    assert "" + text == text;
    SplitFrom(text, term, "")
  }

  /** What a split at the left-to-right, non-overlapping, case-insensitive occurrences of
      `term` looks like: an odd number of pieces that concatenate to `text`, the odd-indexed
      pieces are occurrences, and no occurrence starts inside an even-indexed piece. */
  ghost predicate IsSplitOf(pieces: seq<string>, text: string, term: string)
  {
    && |pieces| % 2 == 1
    && Concat(pieces) == text
    && (forall i :: 0 <= i < |pieces| && i % 2 == 1 ==> EqualsIgnoreCase(pieces[i], term))
    && (forall i :: 0 <= i < |pieces| && i % 2 == 0 ==>
          NoMatchStartsIn(pieces[i], Concat(pieces[i..]), term))
  }

  lemma ConcatOne(s: string)
    ensures Concat([s]) == s
  {
    assert [s][1..] == [];
  }

  lemma ConcatDrop(pieces: seq<string>, i: nat)
    requires i < |pieces|
    ensures Concat(pieces[i..]) == pieces[i] + Concat(pieces[i + 1..])
  {
    assert pieces[i..][1..] == pieces[i + 1..];
  }

  /** A split with no match: one piece, the whole text. */
  lemma SplitOfShort(pending: string, text: string, term: string)
    requires term != [] && |text| < |term|
    requires NoMatchStartsIn(pending, pending + text, term)
    ensures IsSplitOf([pending + text], pending + text, term)
  {
    var r := [pending + text];
    ConcatOne(pending + text);
    assert r[0..] == r;
  }

  /** Prefixing a split of `rest` with an unmatched piece and a match gives a split of the
      whole text. */
  lemma SplitOfPrepend(pending: string, m: string, R: seq<string>, rest: string, term: string)
    requires term != [] && EqualsIgnoreCase(m, term)
    requires IsSplitOf(R, rest, term)
    requires NoMatchStartsIn(pending, pending + (m + rest), term)
    ensures IsSplitOf([pending, m] + R, pending + (m + rest), term)
  {
    var r := [pending, m] + R;
    ConcatDrop(r, 0);
    assert r[1..] == [m] + R;
    ConcatDrop([m] + R, 0);
    assert ([m] + R)[1..] == R;
    assert Concat(r) == pending + (m + rest);
    assert r[0..] == r;
    forall i | 2 <= i < |r|
      ensures r[i] == R[i - 2] && r[i..] == R[i - 2..]
    {
    }
  }

  lemma {:induction false} SplitFromIsSplit(text: string, term: string, pending: string)
    requires term != []
    requires NoMatchStartsIn(pending, pending + text, term)
    ensures IsSplitOf(SplitFrom(text, term, pending), pending + text, term)
    decreases |text|
  {
    if |text| < |term| {
      SplitOfShort(pending, text, term);
    } else if EqualsIgnoreCase(text[..|term|], term) {
      var m := text[..|term|];
      var rest := text[|term|..];
      assert "" + rest == rest;
      SplitFromIsSplit(rest, term, "");
      assert m + rest == text;
      SplitOfPrepend(pending, m, SplitFrom(rest, term, ""), rest, term);
    } else {
      var pending' := pending + [text[0]];
      assert pending' + text[1..] == pending + text;
      forall j | 0 <= j < |pending'|
        ensures !MatchesAt(pending + text, j, term)
      {
        if j == |pending| {
          assert (pending + text)[j..j + |term|] == text[..|term|];
        }
      }
      SplitFromIsSplit(text[1..], term, pending');
    }
  }

  /** Scanning past a stretch `a` in which no match starts only extends the pending piece. */
  lemma {:induction false} SplitFromSkips(a: string, t: string, term: string, pending: string)
    requires term != []
    requires NoMatchStartsIn(a, a + t, term)
    ensures SplitFrom(a + t, term, pending) == SplitFrom(t, term, pending + a)
    decreases |a|
  {
    if a == [] {
      assert a + t == t && pending + a == pending;
    } else if |a + t| < |term| {
      assert pending + (a + t) == (pending + a) + t;
    } else {
      assert !MatchesAt(a + t, 0, term);
      assert (a + t)[..|term|] == (a + t)[0..0 + |term|];
      assert (a + t)[1..] == a[1..] + t;
      forall j | 0 <= j < |a[1..]|
        ensures !MatchesAt(a[1..] + t, j, term)
      {
        assert !MatchesAt(a + t, j + 1, term);
        if j + |term| <= |a[1..] + t| {
          assert (a[1..] + t)[j..j + |term|] == (a + t)[j + 1..j + 1 + |term|];
        }
      }
      SplitFromSkips(a[1..], t, term, pending + [a[0]]);
      assert pending + [a[0]] + a[1..] == pending + a;
    }
  }

  lemma EqualsIgnoreCaseLength(a: string, b: string)
    requires EqualsIgnoreCase(a, b)
    ensures |a| == |b|
  {
    assert |Lower(a)| == |a|;
  }

  /** The split is the only one: any sequence of pieces with the shape `IsSplitOf` describes
      is exactly what `split` returns, so the matched pieces are exactly the left-to-right
      non-overlapping occurrences of the term. */
  lemma {:induction false} SplitUnique(pieces: seq<string>, text: string, term: string)
    requires term != []
    requires IsSplitOf(pieces, text, term)
    ensures pieces == SplitByTerm(text, term)
    decreases |pieces|
  {
    if |pieces| == 1 {
      assert pieces[0..] == pieces;
      assert pieces == [pieces[0]];
      ConcatOne(pieces[0]);
      assert text + "" == text && "" + text == text;
      SplitFromSkips(text, "", term, "");
      assert SplitFrom("", term, text) == [text + ""];
    } else {
      var p0, m, P' := pieces[0], pieces[1], pieces[2..];
      var rest := Concat(P');
      SplitOfTail(pieces, text, term);
      SplitUnique(P', rest, term);
      SplitFromSkips(p0, m + rest, term, "");
      assert "" + p0 == p0;
      assert (m + rest)[..|term|] == m && (m + rest)[|term|..] == rest;
      assert SplitFrom(m + rest, term, p0) == [p0, m] + SplitFrom(rest, term, "");
      assert pieces == [p0, m] + P';
    }
  }

  /** Dropping the first unmatched piece and the first match of a split leaves a split of
      the remaining text. */
  lemma SplitOfTail(pieces: seq<string>, text: string, term: string)
    requires term != [] && |pieces| > 1
    requires IsSplitOf(pieces, text, term)
    ensures IsSplitOf(pieces[2..], Concat(pieces[2..]), term)
    ensures text == pieces[0] + (pieces[1] + Concat(pieces[2..]))
    ensures |pieces[1]| == |term| && EqualsIgnoreCase(pieces[1], term)
    ensures NoMatchStartsIn(pieces[0], text, term)
  {
    var P' := pieces[2..];
    assert pieces[0..] == pieces;
    ConcatDrop(pieces, 0);
    ConcatDrop(pieces, 1);
    assert pieces[1..][1..] == P';
    EqualsIgnoreCaseLength(pieces[1], term);
    forall i | 0 <= i < |P'|
      ensures P'[i] == pieces[i + 2] && P'[i..] == pieces[i + 2..]
    {
    }
  }

  /** One piece of highlighted text: `Marked` pieces are wrapped in a highlight span. */
  datatype Part = Plain(text: string) | Marked(text: string)

  /** `highlightText` returns the text itself for an empty term and an array of parts
      otherwise. */
  datatype Highlighted = Unchanged(text: string) | Parts(parts: seq<Part>)

  function PartTexts(parts: seq<Part>): (texts: seq<string>)
    ensures |texts| == |parts|
    ensures forall i :: 0 <= i < |parts| ==> texts[i] == parts[i].text
  {
    seq(|parts|, i requires 0 <= i < |parts| => parts[i].text)
  }

  /** The text the highlighted value displays, markers removed. */
  function Displayed(h: Highlighted): string
  {
    match h
    case Unchanged(t) => t
    case Parts(parts) => Concat(PartTexts(parts))
  }

  /** `highlightText(text, term)`: with a term, the split pieces, each marked when it equals
      the term ignoring case. */
  function HighlightText(text: string, term: string): (h: Highlighted)
    requires IsLiteralTerm(term)
    ensures h.Unchanged? <==> term == ""
    ensures h.Unchanged? ==> h.text == text
    ensures Displayed(h) == text
    ensures h.Parts? ==> PartTexts(h.parts) == SplitByTerm(text, term)
    ensures h.Parts? ==> |h.parts| % 2 == 1
    ensures h.Parts? ==> forall i :: 0 <= i < |h.parts| ==>
      && (h.parts[i].Marked? <==> i % 2 == 1)
      && (h.parts[i].Marked? <==> EqualsIgnoreCase(h.parts[i].text, term))
  {
    if term == "" then Unchanged(text)
    else
      var pieces := SplitByTerm(text, term);
      var parts := seq(|pieces|, i requires 0 <= i < |pieces| =>
        if EqualsIgnoreCase(pieces[i], term) then Marked(pieces[i]) else Plain(pieces[i]));
      assert PartTexts(parts) == pieces;
      EvenPiecesUnmatched(pieces, text, term);
      Parts(parts)
  }

  /** An even-indexed (unmatched) piece never equals the term ignoring case, so the source's
      per-part comparison marks exactly the matched pieces. */
  lemma EvenPiecesUnmatched(pieces: seq<string>, text: string, term: string)
    requires term != [] && IsSplitOf(pieces, text, term)
    ensures forall i :: 0 <= i < |pieces| && i % 2 == 0 ==> !EqualsIgnoreCase(pieces[i], term)
  {
    forall i | 0 <= i < |pieces| && i % 2 == 0
      ensures !EqualsIgnoreCase(pieces[i], term)
    {
      if EqualsIgnoreCase(pieces[i], term) {
        EqualsIgnoreCaseLength(pieces[i], term);
        ConcatDrop(pieces, i);
        var rest := Concat(pieces[i..]);
        assert rest[0..0 + |term|] == pieces[i];
        assert MatchesAt(rest, 0, term);
        assert false;
      }
    }
  }

  // ---------------------------------------------------------------------------------------
  // Post conversion
  // ---------------------------------------------------------------------------------------

  datatype FileResponse = FileResponse(
    id: int, fileName: string, filePath: string, fileSize: int, fileType: string,
    createdAt: string)

  /** A post as the posts service returns it. */
  datatype PostResponse = PostResponse(
    id: int, userId: string, title: string, content: string, viewCount: int,
    createdAt: string, updatedAt: string, files: seq<FileResponse>, likeCount: int)

  /** A post as the list renders it: the numeric id becomes a string key. */
  datatype Post = Post(
    id: string, title: string, createdAt: string, updatedAt: string, userId: string,
    content: string, viewCount: int, likeCount: int, files: seq<FileResponse>)

  function ConvertPost(p: PostResponse): (q: Post)
    ensures Text.ParseInt(q.id) == Some(p.id)
    ensures q.title == p.title && q.content == p.content && q.userId == p.userId
    ensures q.createdAt == p.createdAt && q.updatedAt == p.updatedAt
    ensures q.viewCount == p.viewCount && q.likeCount == p.likeCount && q.files == p.files
  {
    ParseIntOfIntToString(p.id);
    Post(IntToString(p.id), p.title, p.createdAt, p.updatedAt, p.userId, p.content,
         p.viewCount, p.likeCount, p.files)
  }

  /** `posts.map(...)`: one view record per post, in order. */
  function ConvertPosts(posts: seq<PostResponse>): (converted: seq<Post>)
    ensures |converted| == |posts|
    ensures forall i :: 0 <= i < |posts| ==>
      Text.ParseInt(converted[i].id) == Some(posts[i].id) &&
      converted[i].title == posts[i].title && converted[i].content == posts[i].content
    ensures forall i :: 0 <= i < |posts| ==> converted[i] == ConvertPost(posts[i])
  {
    seq(|posts|, i requires 0 <= i < |posts| => ConvertPost(posts[i]))
  }

  /** The converted ids serve as list keys: they are distinct exactly when the numeric ids
      are. */
  lemma ConvertedKeysDistinct(posts: seq<PostResponse>, i: nat, j: nat)
    requires i < |posts| && j < |posts|
    ensures ConvertPosts(posts)[i].id == ConvertPosts(posts)[j].id <==> posts[i].id == posts[j].id
  {
  }

  // ---------------------------------------------------------------------------------------
  // Session check and the "create post" button
  // ---------------------------------------------------------------------------------------

  datatype AuthStatus = AuthStatus(isLoggedIn: bool, userId: Option<string>)

  /** `isLoggedIn` after the mount-time session check: `None` is a check still in flight.
      It starts false and only a resolved check changes it. */
  function LoggedInAfterCheck(check: Option<Outcome<AuthStatus>>): (loggedIn: bool)
    ensures loggedIn <==> check.Some? && check.value.Resolved? && check.value.value.isLoggedIn
  {
    match check
    case None => false
    case Some(Resolved(status)) => status.isLoggedIn
    case Some(Rejected(_)) => false
  }

  const LoginRequiredForPost := "로그인 후 게시글을 작성할 수 있습니다."

  /** `navigateToCreatePost`: the effects of clicking the "create post" button. */
  function NavigateToCreatePost(isLoggedIn: bool): (effects: seq<Effect>)
    ensures Push("/board/new") in effects <==> isLoggedIn
    ensures Push("/login") in effects <==> !isLoggedIn
    ensures Alert(LoginRequiredForPost) in effects <==> !isLoggedIn
    ensures |effects| > 0 && effects[|effects| - 1].Push?
  {
    if !isLoggedIn then [Alert(LoginRequiredForPost), Push("/login")]
    else [Push("/board/new")]
  }

  /** Until the session check resolves as logged in, "create post" leads to the login page. */
  lemma CreatePostNeedsResolvedLogin(check: Option<Outcome<AuthStatus>>)
    ensures Push("/board/new") in NavigateToCreatePost(LoggedInAfterCheck(check)) <==>
      check.Some? && check.value.Resolved? && check.value.value.isLoggedIn
  {
  }
}

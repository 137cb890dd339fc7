/**
 * The interactive parts of the blog post page (src/components/BlogDetailPage.jsx):
 * the comment form and list, and the like and bookmark buttons.
 *
 * A draft that is empty once trimmed is refused (and the post button is
 * disabled for it); any other draft becomes a new comment by "Guest User",
 * posted "Just now", at the head of the list, with its text exactly as typed,
 * and the draft is cleared.
 */
module Comments {

  datatype Comment = Comment(id: int, user: string, text: string, time: string)

  /** The two comments the page starts with. */
  const InitialComments: seq<Comment> := [
    Comment(1, "Saurav K.", "This is a great breakdown! I've been struggling with edge logic lately.", "2 hours ago"),
    Comment(2, "Elena R.", "Love the point about autonomous systems. Can we see more code examples next time?", "5 hours ago")
  ]

  const GuestUser: string := "Guest User"
  const JustNow: string := "Just now"

  /**
   * The characters `String.prototype.trim` removes: ECMAScript's WhiteSpace
   * (tab, vertical tab, form feed, space, no-break space, the byte order
   * mark and the space separators) and LineTerminator (line feed, carriage
   * return, line and paragraph separators).
   */
  predicate IsWhitespace(c: char)
  {
    || ('\U{9}' <= c <= '\U{D}')
    || c == ' ' || c == '\U{A0}' || c == '\U{1680}'
    || ('\U{2000}' <= c <= '\U{200A}')
    || c == '\U{2028}' || c == '\U{2029}' || c == '\U{202F}' || c == '\U{205F}'
    || c == '\U{3000}' || c == '\U{FEFF}'
  }

  predicate AllWhitespace(s: string)
  {
    forall i :: 0 <= i < |s| ==> IsWhitespace(s[i])
  }

  /** Leading whitespace removed: the result is a suffix of `s` that does not start with whitespace. */
  function TrimStart(s: string): (r: string)
    ensures |r| <= |s| && r == s[|s| - |r|..]
    ensures AllWhitespace(s[..|s| - |r|])
    ensures r == [] || !IsWhitespace(r[0])
    decreases |s|
  {
    if s != [] && IsWhitespace(s[0]) then
      var r := TrimStart(s[1..]);
      assert s[..|s| - |r|] == [s[0]] + s[1..][..|s| - 1 - |r|];
      r
    else
      s
  }

  /** Trailing whitespace removed: the result is a prefix of `s` that does not end with whitespace. */
  function TrimEnd(s: string): (r: string)
    ensures |r| <= |s| && r == s[..|r|]
    ensures AllWhitespace(s[|r|..])
    ensures r == [] || !IsWhitespace(r[|r| - 1])
    decreases |s|
  {
    if s != [] && IsWhitespace(s[|s| - 1]) then
      var front := s[..|s| - 1];
      var r := TrimEnd(front);
      assert s[|r|..] == front[|r|..] + [s[|s| - 1]];
      r
    else
      s
  }

  /**
   * `s.trim()`: neither end of the result is whitespace, and nothing but
   * whitespace is removed from either end (see `TrimIsInnerPiece`).
   */
  function Trim(s: string): (r: string)
    ensures |r| <= |s|
    ensures r == [] || (!IsWhitespace(r[0]) && !IsWhitespace(r[|r| - 1]))
  {
    var t := TrimStart(s);
    var r := TrimEnd(t);
    assert r != [] ==> r[0] == t[0];
    r
  }

  /** The number of whitespace characters `trim` removes at the front of `s`. */
  function LeadingWhitespace(s: string): (n: nat)
    ensures n <= |s|
  {
    |s| - |TrimStart(s)|
  }

  /** A prefix of a suffix of `s` is the slice of `s` between their bounds. */
  lemma PrefixOfSuffix(s: string, t: string, r: string)
    requires |t| <= |s| && t == s[|s| - |t|..]
    requires |r| <= |t| && r == t[..|r|]
    ensures r == s[|s| - |t|..|s| - |t| + |r|]
  {
    assert s[|s| - |t|..][..|r|] == s[|s| - |t|..|s| - |t| + |r|];
  }

  /** Whitespace at the end of a suffix of `s` is whitespace at the end of `s`. */
  lemma WhitespaceAfterPrefix(s: string, t: string, r: string)
    requires |t| <= |s| && t == s[|s| - |t|..]
    requires |r| <= |t| && AllWhitespace(t[|r|..])
    ensures AllWhitespace(s[|s| - |t| + |r|..])
  {
    assert s[|s| - |t| + |r|..] == t[|r|..];
  }

  /** `s.trim()` is the piece of `s` that starts after the leading whitespace. */
  lemma TrimPiece(s: string)
    ensures LeadingWhitespace(s) + |Trim(s)| <= |s|
    ensures Trim(s) == s[LeadingWhitespace(s)..LeadingWhitespace(s) + |Trim(s)|]
  {
    var t := TrimStart(s);
    PrefixOfSuffix(s, t, TrimEnd(t));
  }

  /** Whatever `s.trim()` drops after the piece it keeps is whitespace. */
  lemma TrimDropsTrailingWhitespace(s: string)
    ensures LeadingWhitespace(s) + |Trim(s)| <= |s|
    ensures AllWhitespace(s[LeadingWhitespace(s) + |Trim(s)|..])
  {
    var t := TrimStart(s);
    WhitespaceAfterPrefix(s, t, TrimEnd(t));
  }

  /**
   * `s.trim()` is the piece of `s` starting after the leading whitespace, and
   * everything around that piece is whitespace.
   */
  lemma TrimIsInnerPiece(s: string)
    ensures var i, r := LeadingWhitespace(s), Trim(s);
            && i + |r| <= |s| && r == s[i..i + |r|]
            && AllWhitespace(s[..i]) && AllWhitespace(s[i + |r|..])
  {
    TrimPiece(s);
    TrimDropsTrailingWhitespace(s);
  }

  /** A draft trims to "" exactly when it consists of whitespace only (the empty draft included). */
  lemma TrimEmptyIffBlank(s: string)
    ensures Trim(s) == [] <==> AllWhitespace(s)
  {
    var t := TrimStart(s);
    if Trim(s) == [] {
      assert AllWhitespace(t[0..]);
      assert s == s[..|s| - |t|] + t;
    }
  }

  /** The blog post page. */
  class BlogDetail {
    var comments: seq<Comment>
    var newComment: string
    var isLiked: bool
    var isBookmarked: bool
    /** The comments the page was mounted with. */
    ghost const initial: seq<Comment>
    /** How many comments the visitor has posted. */
    ghost var postedCount: nat

    /** The visitor's comments sit above the initial ones, which are never lost. */
    ghost predicate Valid()
      reads this
    {
      |comments| == postedCount + |initial| && comments[postedCount..] == initial
    }

    /**
     * The post button is enabled (`disabled={!newComment.trim()}` is false):
     * exactly when the draft has a character other than whitespace.
     */
    predicate CanPost()
      reads this
      ensures CanPost() <==> !AllWhitespace(newComment)
    {
      TrimEmptyIffBlank(newComment);
      Trim(newComment) != []
    }

    /**
     * The count shown in the "Discussion (n)" heading: the initial comments
     * plus every comment the visitor has posted.
     */
    function DiscussionCount(): (n: nat)
      reads this
      requires Valid()
      ensures n == |initial| + postedCount
    {
      |comments|
    }

    constructor ()
      ensures comments == InitialComments && initial == InitialComments && newComment == "" && postedCount == 0
      ensures Valid() && !isLiked && !isBookmarked && !CanPost()
    {
      initial := InitialComments;
      comments := InitialComments;
      newComment := "";
      isLiked := false;
      isBookmarked := false;
      postedCount := 0;
    }

    /** The visitor edits the comment box. */
    method EditDraft(text: string)
      requires Valid()
      modifies this
      ensures Valid() && postedCount == old(postedCount)
      ensures newComment == text
      ensures comments == old(comments) && isLiked == old(isLiked) && isBookmarked == old(isBookmarked)
    {
      newComment := text;
    }

    /**
     * The comment form is submitted; `id` is the clock reading the new comment
     * takes. The guard accepts exactly the drafts for which the post button
     * is enabled.
     */
    method SubmitComment(id: int) returns (ok: bool)
      requires Valid()
      modifies this
      ensures Valid()
      ensures ok == old(CanPost())
      ensures ok <==> !AllWhitespace(old(newComment))
      ensures ok ==> comments == [Comment(id, GuestUser, old(newComment), JustNow)] + old(comments)
      ensures ok ==> postedCount == old(postedCount) + 1
      ensures ok ==> newComment == "" && comments[1..] == old(comments)
      ensures !ok ==> comments == old(comments) && newComment == old(newComment) && postedCount == old(postedCount)
      ensures DiscussionCount() == old(DiscussionCount()) + (if ok then 1 else 0)
      ensures isLiked == old(isLiked) && isBookmarked == old(isBookmarked)
    {
      ok := CanPost();
      if ok {
        var commentObj := Comment(id, GuestUser, newComment, JustNow);
        ghost var before := comments;
        comments := [commentObj] + comments;
        postedCount := postedCount + 1;
        newComment := "";
        assert comments[1..] == before;
        assert comments[postedCount..] == before[postedCount - 1..];
      }
    }

    /** The heart button. */
    method ToggleLike()
      requires Valid()
      modifies this
      ensures Valid() && postedCount == old(postedCount)
      ensures isLiked == !old(isLiked)
      ensures comments == old(comments) && newComment == old(newComment) && isBookmarked == old(isBookmarked)
    {
      isLiked := !isLiked;
    }

    /** The bookmark button. */
    method ToggleBookmark()
      requires Valid()
      modifies this
      ensures Valid() && postedCount == old(postedCount)
      ensures isBookmarked == !old(isBookmarked)
      ensures comments == old(comments) && newComment == old(newComment) && isLiked == old(isLiked)
    {
      isBookmarked := !isBookmarked;
    }
  }

  /** Two clicks on the heart restore the like; two on the bookmark restore the bookmark. */
  method TwoClicksRestore(page: BlogDetail)
    requires page.Valid()
    modifies page
    ensures page.isLiked == old(page.isLiked) && page.isBookmarked == old(page.isBookmarked)
    ensures page.comments == old(page.comments) && page.newComment == old(page.newComment)
  {
    page.ToggleLike();
    page.ToggleLike();
    page.ToggleBookmark();
    page.ToggleBookmark();
  }
}

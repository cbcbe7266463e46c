/**
 * `BlogPostComponent` (src/app/components/blog/blog-post/blog-post.component.ts):
 * the page of one post. It looks the route's slug up among all posts, times
 * the post's reading, counts a view, and lets the reader add comments.
 */
module BlogPost {
  import opened Wrappers
  import opened Seqs
  import opened Text
  import opened Records
  import opened Storage
  import opened Posts
  import opened Comments

  /** The errors the post page reports. */
  datatype PageError = NoSlug | NotFound | EmptyContent

  /** The text the page shows for each error. */
  function Message(e: PageError): string
  {
    match e
    case NoSlug => "No post slug provided"
    case NotFound => "Post not found"
    case EmptyContent => "Post content is empty"
  }

  /** Position `i` holds the first post of `posts` with the slug. */
  predicate IsFirstWithSlug(posts: seq<Post>, slug: string, i: int)
  {
    0 <= i < |posts| && posts[i].slug == slug && forall j :: 0 <= j < i ==> posts[j].slug != slug
  }

  /** `posts.find(p => p.slug === slug) || null`: the first post with the slug. */
  function FindBySlug(posts: seq<Post>, slug: string): (r: Option<Post>)
    ensures r.None? <==> forall i :: 0 <= i < |posts| ==> posts[i].slug != slug
    ensures r.Some? ==> r.value.slug == slug && exists i :: IsFirstWithSlug(posts, slug, i) && posts[i] == r.value
    decreases |posts|
  {
    if posts == [] then None
    else if posts[0].slug == slug then Some(posts[0])
    else
      var r := FindBySlug(posts[1..], slug);
      assert forall i :: 0 < i < |posts| ==> posts[i] == posts[1..][i - 1];
      if r.Some? then
        var i :| IsFirstWithSlug(posts[1..], slug, i) && posts[1..][i] == r.value;
        assert IsFirstWithSlug(posts, slug, i + 1);
        r
      else
        r
  }

  /** The characters `/[#*>\-]/g` removes. */
  predicate IsMarker(c: char)
  {
    c == '#' || c == '*' || c == '>' || c == '-'
  }

  function NotMarker(c: char): bool
  {
    !IsMarker(c)
  }

  /** `replace(/[#*>\-]/g, '')`: the text with every marker character removed and the rest in order. */
  function RemoveMarkers(s: string): (r: string)
    ensures forall c :: c in r <==> c in s && !IsMarker(c)
    ensures IsSubsequence(r, s)
    ensures SelectedBy(r, s, NotMarker)
  {
    FilterSelects(s, NotMarker);
    Filter(s, NotMarker)
  }

  /**
   * The reading time `ngOnInit` shows: markdown images and links are removed
   * (`stripLinks` stands for the two link regexes), then the markers, and the
   * remaining words take `ceil(words / 200)` minutes, at least one.
   */
  function ContentReadingTime(content: string, stripLinks: string -> string): (minutes: nat)
    ensures minutes >= 1
  {
    var words := WordCount(RemoveMarkers(stripLinks(content)));
    if words > 0 then MinutesFor(words) else 1
  }

  /** No words left means one minute; otherwise the fewest whole minutes that cover the words at 200 a minute. */
  lemma ContentReadingTimeCeiling(content: string, stripLinks: string -> string)
    ensures var words, minutes := WordCount(RemoveMarkers(stripLinks(content))), ContentReadingTime(content, stripLinks);
      && (words == 0 ==> minutes == 1)
      && (words > 0 ==> words <= minutes * 200 && (minutes - 1) * 200 < words)
  {
  }

  /** A text with no words after cleaning, such as one made only of markers, takes one minute. */
  lemma BlankContentTakesOneMinute(content: string, stripLinks: string -> string)
    requires IsBlank(RemoveMarkers(stripLinks(content)))
    ensures ContentReadingTime(content, stripLinks) == 1
  {
    WordCountPositive(RemoveMarkers(stripLinks(content)));
  }

  /** What the page shows once the lookup is done: the post, its reading time and the error, if any. */
  datatype Shown = Shown(post: Option<Post>, readingTime: int, error: Option<PageError>)

  /**
   * The outcome of the lookup in `ngOnInit()`, from the post found (if any)
   * and the reading time and error shown before: a missing post and an empty
   * post are reported and keep the old reading time; a post with content is
   * timed and keeps the old error.
   */
  function ShowFound(found: Option<Post>, stripLinks: string -> string, readingTime: int, error: Option<PageError>): (s: Shown)
    ensures s.post == found
    ensures found.None? ==> s.error == Some(NotFound) && s.readingTime == readingTime
    ensures found.Some? && found.value.content == "" ==> s.error == Some(EmptyContent) && s.readingTime == readingTime
    ensures found.Some? && found.value.content != "" ==>
      s.error == error && s.readingTime >= 1 && s.readingTime == ContentReadingTime(found.value.content, stripLinks)
  {
    if found.Some? && found.value.content != "" then
      Shown(found, ContentReadingTime(found.value.content, stripLinks), error)
    else
      Shown(found, readingTime, Some(if found.Some? then EmptyContent else NotFound))
  }

  /**
   * The comment `addComment()` adds: none when the trimmed author or the
   * trimmed content is empty, or when no post is shown (where the source's
   * `this.post!.slug` throws before anything changes); otherwise one for the
   * shown post, with both inputs trimmed and the creation time `now`.
   */
  function CommentToAdd(post: Option<Post>, author: string, content: string, now: int): (c: Option<Comment>)
    ensures c.None? <==> IsBlank(author) || IsBlank(content) || post.None?
    ensures c.Some? ==>
      && c.value == Comment(post.value.slug, Trim(author), Trim(content), now)
      && c.value.author != "" && IsTrimmed(c.value.author)
      && c.value.content != "" && IsTrimmed(c.value.content)
  {
    var a, t := Trim(author), Trim(content);
    TrimEmptyIffBlank(author);
    TrimEmptyIffBlank(content);
    if a == [] || t == [] then None
    else if post.None? then None
    else Some(Comment(post.value.slug, a, t, now))
  }

  class BlogPostComponent {
    var post: Option<Post>
    var readingTime: int
    var isLoading: bool
    var error: Option<PageError>
    var views: int
    var comments: seq<Comment>
    var newCommentAuthor: string
    var newCommentContent: string
    const postService: PostService
    const commentService: CommentService
    const store: LocalStorage

    /** The component as Angular creates it. */
    constructor (postService: PostService, commentService: CommentService, store: LocalStorage)
      ensures this.postService == postService && this.commentService == commentService && this.store == store
      ensures post.None? && readingTime == 0 && !isLoading && error.None? && views == 0
      ensures comments == [] && newCommentAuthor == "" && newCommentContent == ""
    {
      post := None;
      readingTime := 0;
      isLoading := false;
      error := None;
      views := 0;
      comments := [];
      newCommentAuthor := "";
      newCommentContent := "";
      this.postService := postService;
      this.commentService := commentService;
      this.store := store;
    }

    /**
     * `ngOnInit()` for the route's slug. Without a slug it only reports the
     * error. Otherwise it loads all posts; it counts a view and reloads the
     * comments only when a post was already shown, since that test comes
     * before the lookup; then it shows the first post with the slug and times
     * it, or reports why it cannot. It is never left loading.
     */
    method NgOnInit(routeSlug: Option<string>, f: Fetcher, stripLinks: string -> string)
      requires postService.Valid()
      modifies this, postService, store
      ensures !isLoading && postService.Valid()
      ensures (routeSlug.None? || routeSlug.value == "") ==>
        && error == Some(NoSlug) && post == old(post) && readingTime == old(readingTime)
        && views == old(views) && comments == old(comments)
        && store.items == old(store.items)
        && postService.loadedPosts == old(postService.loadedPosts)
        && postService.hasMorePosts == old(postService.hasMorePosts)
      ensures routeSlug.Some? && routeSlug.value != "" ==>
        var slug := routeSlug.value;
        && postService.LocalRefreshed(old(postService.loadedPosts), old(postService.hasMorePosts), f)
        && Shown(post, readingTime, error) == ShowFound(
             FindBySlug(Aggregate(postService.loadedPosts, LoadFromGitHub(f)), slug),
             stripLinks, old(readingTime), old(error))
        && (old(post).Some? ==>
              && store.items == Incremented(old(store.items), slug)
              && views == ViewCount(store.items, slug)
              && comments == CommentsFor(store.items, slug))
        && (old(post).None? ==>
              store.items == old(store.items) && views == old(views) && comments == old(comments))
      ensures newCommentAuthor == old(newCommentAuthor) && newCommentContent == old(newCommentContent)
    {
      isLoading := true;
      if routeSlug.None? || routeSlug.value == "" {
        error := Some(NoSlug);
        isLoading := false;
        return;
      }
      var slug := routeSlug.value;
      var posts := postService.GetAllPosts(f);
      if post.Some? {
        RecordVisit(slug);
      }
      ShowPost(posts, slug, stripLinks);
      isLoading := false;
    }

    /**
     * `ngOnInit()` as evidently intended: the same lookup, but the view is
     * counted and the comments are loaded for the post just found.
     */
    method NgOnInitCorrected(routeSlug: Option<string>, f: Fetcher, stripLinks: string -> string)
      requires postService.Valid()
      modifies this, postService, store
      ensures !isLoading && postService.Valid()
      ensures (routeSlug.None? || routeSlug.value == "") ==>
        && error == Some(NoSlug) && post == old(post) && readingTime == old(readingTime)
        && views == old(views) && comments == old(comments)
        && store.items == old(store.items)
        && postService.loadedPosts == old(postService.loadedPosts)
        && postService.hasMorePosts == old(postService.hasMorePosts)
      ensures routeSlug.Some? && routeSlug.value != "" ==>
        var slug := routeSlug.value;
        && postService.LocalRefreshed(old(postService.loadedPosts), old(postService.hasMorePosts), f)
        && Shown(post, readingTime, error) == ShowFound(
             FindBySlug(Aggregate(postService.loadedPosts, LoadFromGitHub(f)), slug),
             stripLinks, old(readingTime), old(error))
        && (post.Some? ==>
              && store.items == Incremented(old(store.items), slug)
              && views == ViewCount(store.items, slug)
              && comments == CommentsFor(store.items, slug))
        && (post.None? ==>
              store.items == old(store.items) && views == old(views) && comments == old(comments))
      ensures newCommentAuthor == old(newCommentAuthor) && newCommentContent == old(newCommentContent)
    {
      isLoading := true;
      if routeSlug.None? || routeSlug.value == "" {
        error := Some(NoSlug);
        isLoading := false;
        return;
      }
      var slug := routeSlug.value;
      var posts := postService.GetAllPosts(f);
      ShowPost(posts, slug, stripLinks);
      if post.Some? {
        RecordVisit(slug);
      }
      isLoading := false;
    }

    /** The view count and comment reload of `ngOnInit()`, for a page already showing a post. */
    method RecordVisit(slug: string)
      modifies this, store
      ensures store.items == Incremented(old(store.items), slug)
      ensures views == ViewCount(store.items, slug) && comments == CommentsFor(store.items, slug)
      ensures post == old(post) && readingTime == old(readingTime) && error == old(error)
      ensures isLoading == old(isLoading)
      ensures newCommentAuthor == old(newCommentAuthor) && newCommentContent == old(newCommentContent)
    {
      postService.IncrementPostViews(store, slug);
      views := postService.GetPostViews(store, slug);
      comments := commentService.GetCommentsForPost(store, slug);
    }

    /** The lookup and reading time of `ngOnInit()`. */
    method ShowPost(posts: seq<Post>, slug: string, stripLinks: string -> string)
      modifies this
      ensures Shown(post, readingTime, error)
           == ShowFound(FindBySlug(posts, slug), stripLinks, old(readingTime), old(error))
      ensures views == old(views) && comments == old(comments) && isLoading == old(isLoading)
      ensures newCommentAuthor == old(newCommentAuthor) && newCommentContent == old(newCommentContent)
    {
      var shown := ShowFound(FindBySlug(posts, slug), stripLinks, readingTime, error);
      post, readingTime, error := shown.post, shown.readingTime, shown.error;
    }

    /**
     * `addComment()`: when `CommentToAdd` gives no comment nothing changes;
     * otherwise its comment is stored and appended to the page's list, and
     * the inputs are cleared.
     */
    method AddComment(now: int)
      modifies this, store
      ensures var c := CommentToAdd(old(post), old(newCommentAuthor), old(newCommentContent), now);
        && (c.None? ==>
              && comments == old(comments) && store.items == old(store.items)
              && newCommentAuthor == old(newCommentAuthor) && newCommentContent == old(newCommentContent))
        && (c.Some? ==>
              && comments == old(comments) + [c.value]
              && store.items == WithComment(old(store.items), c.value)
              && newCommentAuthor == "" && newCommentContent == "")
      ensures post == old(post) && views == old(views) && readingTime == old(readingTime)
      ensures error == old(error) && isLoading == old(isLoading)
    {
      var c := CommentToAdd(post, newCommentAuthor, newCommentContent, now);
      if c.Some? {
        SaveComment(c.value);
      }
    }

    /** The accepted branch of `addComment()`: store `c`, show it last and clear the inputs. */
    method SaveComment(c: Comment)
      modifies this, store
      ensures comments == old(comments) + [c] && store.items == WithComment(old(store.items), c)
      ensures newCommentAuthor == "" && newCommentContent == ""
      ensures post == old(post) && views == old(views) && readingTime == old(readingTime)
      ensures error == old(error) && isLoading == old(isLoading)
    {
      commentService.AddComment(store, c);
      comments := comments + [c];
      newCommentAuthor := "";
      newCommentContent := "";
    }
  }

  /** A fresh page never counts a view on its first load: no post is shown before the lookup. */
  method FirstVisit(postService: PostService, store: LocalStorage, slug: string, f: Fetcher, stripLinks: string -> string)
      returns (page: BlogPostComponent)
    requires postService.Valid()
    modifies postService, store
    ensures page.views == 0 && page.comments == [] && store.items == old(store.items)
    ensures slug != "" ==>
      page.post == FindBySlug(Aggregate(postService.loadedPosts, LoadFromGitHub(f)), slug)
  {
    var comments := new CommentService();
    page := new BlogPostComponent(postService, comments, store);
    page.NgOnInit(Some(slug), f, stripLinks);
  }

  /**
   * With the corrected lookup a fresh page that finds its post counts the
   * visit: one view more than the store held, and the post's stored comments.
   */
  method FirstVisitCorrected(postService: PostService, store: LocalStorage, slug: string, f: Fetcher,
                             stripLinks: string -> string) returns (page: BlogPostComponent)
    requires postService.Valid()
    modifies postService, store
    ensures slug != "" ==>
      page.post == FindBySlug(Aggregate(postService.loadedPosts, LoadFromGitHub(f)), slug)
    ensures slug != "" && page.post.Some? ==>
      && page.views == ViewCount(old(store.items), slug) + 1
      && page.comments == CommentsFor(old(store.items), slug)
      && store.items == Incremented(old(store.items), slug)
  {
    var comments := new CommentService();
    page := new BlogPostComponent(postService, comments, store);
    ghost var before := store.items;
    page.NgOnInitCorrected(Some(slug), f, stripLinks);
    if slug != "" && page.post.Some? {
      ViewCountsKeepComments(before, slug, Number(ViewCount(before, slug) + 1));
    }
  }
}

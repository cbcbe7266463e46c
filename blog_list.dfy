/**
 * `BlogListComponent` (src/app/components/blog/blog-list/blog-list.component.ts):
 * the list page. It keeps its own copy of the posts, offers the tags and
 * authors found in them, and narrows them with a filter pipeline of its own,
 * different from the service's: an all-match, case-sensitive tag test, an
 * exact author test and a search that ignores excerpts.
 */
module BlogList {
  import opened Wrappers
  import opened Seqs
  import opened Text
  import opened Records
  import opened Posts

  // ---------------------------------------------------------------------------
  // The stages of the list page's filter

  /** The search stage: skipped for a blank query, otherwise title, author or a tag contains the lower-cased, untrimmed query. */
  function SearchStage(query: string): Post -> bool
  {
    (p: Post) => IsBlank(query) ||
      var q := ToLower(query);
      || Contains(ToLower(p.title), q)
      || Contains(ToLower(p.author), q)
      || (exists tag :: tag in p.tags && Contains(ToLower(tag), q))
  }

  /** The tags stage: when chosen with tags selected, the post carries EVERY selected tag, exactly. */
  function TagStage(filterType: string, selected: seq<string>): Post -> bool
  {
    (p: Post) => !(filterType == "tags" && selected != []) || (forall tag :: tag in selected ==> tag in p.tags)
  }

  /** The author stage: when chosen with an author selected, the post's author is exactly that one. */
  function AuthorStage(filterType: string, author: string): Post -> bool
  {
    (p: Post) => !(filterType == "author" && author != "") || p.author == author
  }

  /** A lower date bound, inclusive; an absent bound admits every post. */
  function FromBound(from: Option<int>): Post -> bool
  {
    (p: Post) => from.None? || p.date >= from.value
  }

  /** An upper date bound, inclusive; an absent bound admits every post. */
  function ToBound(to: Option<int>): Post -> bool
  {
    (p: Post) => to.None? || p.date <= to.value
  }

  /** The date stage: when chosen, each bound that is present holds. */
  function DateStage(filterType: string, from: Option<int>, to: Option<int>): Post -> bool
  {
    (p: Post) => filterType != "date" || (FromBound(from)(p) && ToBound(to)(p))
  }

  /** What the list page shows: the posts that pass every stage. */
  function ListKeeps(query: string, filterType: string, selected: seq<string>, author: string,
                     from: Option<int>, to: Option<int>): Post -> bool
  {
    (p: Post) =>
      && SearchStage(query)(p)
      && TagStage(filterType, selected)(p)
      && AuthorStage(filterType, author)(p)
      && DateStage(filterType, from, to)(p)
  }

  /** Both predicates hold. */
  function Both(p: Post -> bool, q: Post -> bool): Post -> bool
  {
    (x: Post) => p(x) && q(x)
  }

  /** The search stage of `applyFilters()`, on the whole list. */
  method SearchStep(posts: seq<Post>, query: string) returns (filtered: seq<Post>)
    ensures SelectedBy(filtered, posts, SearchStage(query))
  {
    filtered := posts;
    if Trim(query) != [] {
      var q := ToLower(query);
      var matches := (p: Post) =>
        || Contains(ToLower(p.title), q)
        || Contains(ToLower(p.author), q)
        || (exists tag :: tag in p.tags && Contains(ToLower(tag), q));
      filtered := Filter(posts, matches);
      FilterSelects(posts, matches);
      SelectedByEquivalent(filtered, posts, matches, SearchStage(query));
    } else {
      SelectedByAll(posts, SearchStage(query));
    }
  }

  /** The tags stage of `applyFilters()`, narrowing what the earlier stages kept. */
  method TagStep(posts: seq<Post>, filtered: seq<Post>, ghost keeps: Post -> bool, kind: string, tags: seq<string>)
      returns (next: seq<Post>)
    requires SelectedBy(filtered, posts, keeps)
    ensures SelectedBy(next, posts, Both(keeps, TagStage(kind, tags)))
  {
    next := filtered;
    if kind == "tags" && |tags| > 0 {
      var carriesAll := (p: Post) => forall tag :: tag in tags ==> tag in p.tags;
      next := Filter(filtered, carriesAll);
      FilterSelects(filtered, carriesAll);
      SelectedByCompose(posts, filtered, next, keeps, carriesAll, Both(keeps, TagStage(kind, tags)));
    } else {
      SelectedByEquivalent(filtered, posts, keeps, Both(keeps, TagStage(kind, tags)));
    }
  }

  /** The author stage of `applyFilters()`. */
  method AuthorStep(posts: seq<Post>, filtered: seq<Post>, ghost keeps: Post -> bool, kind: string, author: string)
      returns (next: seq<Post>)
    requires SelectedBy(filtered, posts, keeps)
    ensures SelectedBy(next, posts, Both(keeps, AuthorStage(kind, author)))
  {
    next := filtered;
    if kind == "author" && author != "" {
      var isAuthor := (p: Post) => p.author == author;
      next := Filter(filtered, isAuthor);
      FilterSelects(filtered, isAuthor);
      SelectedByCompose(posts, filtered, next, keeps, isAuthor, Both(keeps, AuthorStage(kind, author)));
    } else {
      SelectedByEquivalent(filtered, posts, keeps, Both(keeps, AuthorStage(kind, author)));
    }
  }

  /** The date stage of `applyFilters()`: each bound that is present, one after the other. */
  method DateStep(posts: seq<Post>, filtered: seq<Post>, ghost keeps: Post -> bool, kind: string,
                  from: Option<int>, to: Option<int>) returns (next: seq<Post>)
    requires SelectedBy(filtered, posts, keeps)
    ensures SelectedBy(next, posts, Both(keeps, DateStage(kind, from, to)))
  {
    next := filtered;
    if kind == "date" {
      if from.Some? {
        var notBefore := (p: Post) => p.date >= from.value;
        next := Filter(filtered, notBefore);
        FilterSelects(filtered, notBefore);
        SelectedByCompose(posts, filtered, next, keeps, notBefore, Both(keeps, FromBound(from)));
      } else {
        SelectedByEquivalent(filtered, posts, keeps, Both(keeps, FromBound(from)));
      }
      var afterFrom := next;
      if to.Some? {
        var notAfter := (p: Post) => p.date <= to.value;
        next := Filter(afterFrom, notAfter);
        FilterSelects(afterFrom, notAfter);
        SelectedByCompose(posts, afterFrom, next, Both(keeps, FromBound(from)), notAfter,
                          Both(keeps, DateStage(kind, from, to)));
      } else {
        SelectedByEquivalent(afterFrom, posts, Both(keeps, FromBound(from)), Both(keeps, DateStage(kind, from, to)));
      }
    } else {
      SelectedByEquivalent(filtered, posts, keeps, Both(keeps, DateStage(kind, from, to)));
    }
  }

  /**
   * The body of `applyFilters()`: the search stage, then whichever of the
   * tags, author and date stages the filter type selects, each narrowing the
   * previous result; what is left is exactly the posts that pass every stage,
   * in list order.
   */
  method FilterPipeline(posts: seq<Post>, query: string, kind: string, tags: seq<string>, author: string,
                        from: Option<int>, to: Option<int>) returns (filtered: seq<Post>)
    ensures SelectedBy(filtered, posts, ListKeeps(query, kind, tags, author, from, to))
  {
    filtered := SearchStep(posts, query);
    ghost var keeps := SearchStage(query);
    filtered := TagStep(posts, filtered, keeps, kind, tags);
    keeps := Both(keeps, TagStage(kind, tags));
    filtered := AuthorStep(posts, filtered, keeps, kind, author);
    keeps := Both(keeps, AuthorStage(kind, author));
    filtered := DateStep(posts, filtered, keeps, kind, from, to);
    keeps := Both(keeps, DateStage(kind, from, to));
    SelectedByEquivalent(filtered, posts, keeps, ListKeeps(query, kind, tags, author, from, to));
  }

  // ---------------------------------------------------------------------------
  // Tags and authors on offer

  /** Every tag of every post, in post order and then tag order: the order `forEach` visits them. */
  function TagOccurrences(posts: seq<Post>): seq<string>
  {
    if posts == [] then [] else TagOccurrences(posts[..|posts| - 1]) + posts[|posts| - 1].tags
  }

  /** The non-empty authors of the posts, in post order. */
  function AuthorOccurrences(posts: seq<Post>): seq<string>
  {
    if posts == [] then []
    else
      var last := posts[|posts| - 1];
      AuthorOccurrences(posts[..|posts| - 1]) + (if last.author != "" then [last.author] else [])
  }

  lemma {:induction false} TagOccurrencesMembers(posts: seq<Post>, tag: string)
    ensures tag in TagOccurrences(posts) <==> exists i :: 0 <= i < |posts| && tag in posts[i].tags
    decreases |posts|
  {
    if posts != [] {
      var init := posts[..|posts| - 1];
      TagOccurrencesMembers(init, tag);
      assert forall i :: 0 <= i < |init| ==> init[i] == posts[i];
    }
  }

  lemma {:induction false} AuthorOccurrencesMembers(posts: seq<Post>, author: string)
    ensures author in AuthorOccurrences(posts) <==>
      author != "" && exists i :: 0 <= i < |posts| && posts[i].author == author
    decreases |posts|
  {
    if posts != [] {
      var init := posts[..|posts| - 1];
      AuthorOccurrencesMembers(init, author);
      assert forall i :: 0 <= i < |init| ==> init[i] == posts[i];
    }
  }

  /** The inner `post.tags.forEach(tag => tagSet.add(tag))`, with the set kept in insertion order. */
  method AddTags(tagSet: seq<string>, ghost seen: seq<string>, tags: seq<string>) returns (r: seq<string>)
    requires tagSet == Dedup(seen)
    ensures r == Dedup(seen + tags)
  {
    r := tagSet;
    assert seen + tags[..0] == seen;
    var j := 0;
    while j < |tags|
      invariant 0 <= j <= |tags|
      invariant r == Dedup(seen + tags[..j])
    {
      DedupSnoc(seen + tags[..j], tags[j]);
      assert (seen + tags[..j]) + [tags[j]] == seen + tags[..j + 1];
      if tags[j] !in r {
        r := r + [tags[j]];
      }
      j := j + 1;
    }
    assert tags[..|tags|] == tags;
  }

  lemma OccurrencesStep(ps: seq<Post>, i: nat)
    requires i < |ps|
    ensures TagOccurrences(ps[..i + 1]) == TagOccurrences(ps[..i]) + ps[i].tags
    ensures AuthorOccurrences(ps[..i + 1])
         == AuthorOccurrences(ps[..i]) + (if ps[i].author != "" then [ps[i].author] else [])
  {
    assert ps[..i + 1][..i] == ps[..i];
  }

  /** The loop of `extractTagsAndAuthors()` over the posts, collecting tags and non-empty authors. */
  method CollectTagsAndAuthors(ps: seq<Post>) returns (tagSet: seq<string>, authorSet: seq<string>)
    ensures tagSet == Dedup(TagOccurrences(ps))
    ensures authorSet == Dedup(AuthorOccurrences(ps))
  {
    tagSet, authorSet := [], [];
    var i := 0;
    while i < |ps|
      invariant 0 <= i <= |ps|
      invariant tagSet == Dedup(TagOccurrences(ps[..i]))
      invariant authorSet == Dedup(AuthorOccurrences(ps[..i]))
    {
      var post := ps[i];
      OccurrencesStep(ps, i);
      tagSet := AddTags(tagSet, TagOccurrences(ps[..i]), post.tags);
      if post.author != "" {
        DedupSnoc(AuthorOccurrences(ps[..i]), post.author);
        if post.author !in authorSet {
          authorSet := authorSet + [post.author];
        }
      } else {
        assert AuthorOccurrences(ps[..i]) + [] == AuthorOccurrences(ps[..i]);
      }
      i := i + 1;
    }
    assert ps[..|ps|] == ps;
  }

  /** The tags on offer: each tag of some post, once, in the order tags first appear. */
  lemma TagsOnOffer(ps: seq<Post>)
    ensures var tags := Dedup(TagOccurrences(ps));
      && NoDuplicates(tags)
      && (forall tag :: tag in tags <==> exists i :: 0 <= i < |ps| && tag in ps[i].tags)
      && (forall i, j :: 0 <= i < j < |tags| ==>
            IndexOf(TagOccurrences(ps), tags[i]) < IndexOf(TagOccurrences(ps), tags[j]))
  {
    forall tag | true
      ensures tag in Dedup(TagOccurrences(ps)) <==> exists i :: 0 <= i < |ps| && tag in ps[i].tags
    {
      TagOccurrencesMembers(ps, tag);
    }
    DedupFirstOccurrenceOrder(TagOccurrences(ps));
  }

  /** The authors on offer: each non-empty author of some post, once, in the order authors first appear. */
  lemma AuthorsOnOffer(ps: seq<Post>)
    ensures var authors := Dedup(AuthorOccurrences(ps));
      && NoDuplicates(authors)
      && (forall a :: a in authors <==> a != "" && exists i :: 0 <= i < |ps| && ps[i].author == a)
      && (forall i, j :: 0 <= i < j < |authors| ==>
            IndexOf(AuthorOccurrences(ps), authors[i]) < IndexOf(AuthorOccurrences(ps), authors[j]))
  {
    forall a | true
      ensures a in Dedup(AuthorOccurrences(ps)) <==> a != "" && exists i :: 0 <= i < |ps| && ps[i].author == a
    {
      AuthorOccurrencesMembers(ps, a);
    }
    DedupFirstOccurrenceOrder(AuthorOccurrences(ps));
  }

  class BlogListComponent {
    var searchQuery: string
    var posts: seq<Post>
    var isLoading: bool
    var filteredPosts: seq<Post>
    var selectedTags: seq<string>
    var selectedAuthor: string
    var dateFrom: Option<int>
    var dateTo: Option<int>
    var allTags: seq<string>
    var allAuthors: seq<string>
    var selectedFilterType: string
    const postService: PostService

    /** The component as Angular creates it: every field at its initial value. */
    constructor (service: PostService)
      ensures postService == service
      ensures searchQuery == "" && posts == [] && !isLoading && filteredPosts == []
      ensures selectedTags == [] && selectedAuthor == "" && dateFrom.None? && dateTo.None?
      ensures allTags == [] && allAuthors == [] && selectedFilterType == ""
    {
      searchQuery := "";
      posts := [];
      isLoading := false;
      filteredPosts := [];
      selectedTags := [];
      selectedAuthor := "";
      dateFrom := None;
      dateTo := None;
      allTags := [];
      allAuthors := [];
      selectedFilterType := "";
      postService := service;
    }

    /** `hasMore()`: the service's exhaustion flag. */
    function HasMore(): (r: bool)
      reads this, postService
      ensures r == postService.hasMorePosts
    {
      postService.HasMore()
    }

    /**
     * `extractTagsAndAuthors()`: every tag, and every non-empty author, once
     * each and in the order of first occurrence, as a `Set` collects them.
     */
    method ExtractTagsAndAuthors()
      modifies this
      ensures allTags == Dedup(TagOccurrences(posts)) && allAuthors == Dedup(AuthorOccurrences(posts))
      ensures NoDuplicates(allTags) && NoDuplicates(allAuthors)
      ensures forall tag :: tag in allTags <==> exists i :: 0 <= i < |posts| && tag in posts[i].tags
      ensures forall a :: a in allAuthors <==> a != "" && exists i :: 0 <= i < |posts| && posts[i].author == a
      ensures posts == old(posts) && filteredPosts == old(filteredPosts) && isLoading == old(isLoading)
      ensures searchQuery == old(searchQuery) && selectedFilterType == old(selectedFilterType)
      ensures selectedTags == old(selectedTags) && selectedAuthor == old(selectedAuthor)
      ensures dateFrom == old(dateFrom) && dateTo == old(dateTo)
    {
      var tags, authors := CollectTagsAndAuthors(posts);
      TagsOnOffer(posts);
      AuthorsOnOffer(posts);
      allTags := tags;
      allAuthors := authors;
    }

    /** `clearFilterInputs()`: resets the filter inputs; the search query and the filter type stay. */
    method ClearFilterInputs()
      modifies this
      ensures selectedTags == [] && selectedAuthor == "" && dateFrom.None? && dateTo.None?
      ensures searchQuery == old(searchQuery) && selectedFilterType == old(selectedFilterType)
      ensures posts == old(posts) && filteredPosts == old(filteredPosts) && isLoading == old(isLoading)
      ensures allTags == old(allTags) && allAuthors == old(allAuthors)
    {
      selectedTags := [];
      selectedAuthor := "";
      dateFrom := None;
      dateTo := None;
    }

    /** `applyFilters()`: the shown posts become those of the list that pass the filter. */
    method ApplyFilters()
      modifies this
      ensures SelectedBy(filteredPosts, posts,
        ListKeeps(searchQuery, selectedFilterType, selectedTags, selectedAuthor, dateFrom, dateTo))
      ensures posts == old(posts) && isLoading == old(isLoading)
      ensures searchQuery == old(searchQuery) && selectedFilterType == old(selectedFilterType)
      ensures selectedTags == old(selectedTags) && selectedAuthor == old(selectedAuthor)
      ensures dateFrom == old(dateFrom) && dateTo == old(dateTo)
      ensures allTags == old(allTags) && allAuthors == old(allAuthors)
    {
      filteredPosts := FilterPipeline(posts, searchQuery, selectedFilterType, selectedTags, selectedAuthor, dateFrom, dateTo);
    }

    /** `ngOnInit()`: loads all posts, then offers their tags and authors and applies the filters. */
    method OnInit(f: Fetcher)
      requires postService.Valid()
      modifies this, postService
      ensures postService.Valid() && !isLoading
      ensures postService.LocalRefreshed(old(postService.loadedPosts), old(postService.hasMorePosts), f)
      ensures posts == Aggregate(postService.loadedPosts, LoadFromGitHub(f))
      ensures allTags == Dedup(TagOccurrences(posts)) && allAuthors == Dedup(AuthorOccurrences(posts))
      ensures SelectedBy(filteredPosts, posts,
        ListKeeps(searchQuery, selectedFilterType, selectedTags, selectedAuthor, dateFrom, dateTo))
      ensures searchQuery == old(searchQuery)
      ensures selectedFilterType == old(selectedFilterType) && selectedTags == old(selectedTags)
      ensures selectedAuthor == old(selectedAuthor) && dateFrom == old(dateFrom) && dateTo == old(dateTo)
    {
      isLoading := true;
      posts := postService.GetAllPosts(f);
      isLoading := false;
      ExtractTagsAndAuthors();
      ApplyFilters();
    }

    /** `onSearchChange()`: replaces the list with the service's search results for the query. */
    method OnSearchChange(f: Fetcher)
      requires postService.Valid()
      modifies this, postService
      ensures postService.Valid() && !isLoading
      ensures postService.LocalRefreshed(old(postService.loadedPosts), old(postService.hasMorePosts), f)
      ensures posts == Search(Aggregate(postService.loadedPosts, LoadFromGitHub(f)), searchQuery)
      ensures searchQuery == old(searchQuery) && filteredPosts == old(filteredPosts)
      ensures allTags == old(allTags) && allAuthors == old(allAuthors)
      ensures selectedFilterType == old(selectedFilterType) && selectedTags == old(selectedTags)
      ensures selectedAuthor == old(selectedAuthor) && dateFrom == old(dateFrom) && dateTo == old(dateTo)
    {
      isLoading := true;
      ghost var shown, query, tags, authors := filteredPosts, searchQuery, allTags, allAuthors;
      ghost var filterType, selected, author, from, to := selectedFilterType, selectedTags, selectedAuthor, dateFrom, dateTo;
      posts := postService.SearchPosts(f, searchQuery);
      assert && filteredPosts == shown && searchQuery == query && allTags == tags && allAuthors == authors
             && selectedFilterType == filterType && selectedTags == selected && selectedAuthor == author
             && dateFrom == from && dateTo == to;
      isLoading := false;
    }

    /**
     * `loadMore()`: only when more posts remain and nothing is loading does it
     * take the service's next page; it never leaves a load it started marked
     * as running, and called while loading it changes nothing.
     */
    method LoadMore(f: Fetcher)
      requires postService.Valid()
      modifies this, postService
      ensures postService.Valid() && isLoading == old(isLoading)
      ensures !(old(postService.hasMorePosts) && !old(isLoading)) ==>
        && posts == old(posts)
        && postService.loadedPosts == old(postService.loadedPosts)
        && postService.hasMorePosts == old(postService.hasMorePosts)
      ensures old(postService.hasMorePosts) && !old(isLoading) ==>
        && posts == postService.loadedPosts
        && postService.loadedPosts == old(postService.loadedPosts)
             + FetchPosts(postService.localPostsFiles, |old(postService.loadedPosts)|, postService.pageSize, f)
        && postService.hasMorePosts == (|postService.loadedPosts| < |postService.localPostsFiles|)
      ensures searchQuery == old(searchQuery) && filteredPosts == old(filteredPosts)
      ensures allTags == old(allTags) && allAuthors == old(allAuthors)
      ensures selectedFilterType == old(selectedFilterType) && selectedTags == old(selectedTags)
      ensures selectedAuthor == old(selectedAuthor) && dateFrom == old(dateFrom) && dateTo == old(dateTo)
    {
      if HasMore() && !isLoading {
        isLoading := true;
        posts := postService.LoadMorePosts(f);
        isLoading := false;
      }
    }
  }
}

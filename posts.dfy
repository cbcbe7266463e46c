/**
 * `PostService` (src/app/services/post.service.ts): normalising markdown into
 * posts, paging through the local manifest, reading the GitHub repository,
 * merging and sorting, the search and filter functions, the view counter and
 * the RSS feed.
 *
 * Every request to the outside world is answered by a `Fetcher`: the local file
 * reads, the GitHub listing and downloads, the `front-matter` library and the
 * clock are values handed in, so each operation is a function of them.
 */
module Posts {
  import opened Wrappers
  import opened Seqs
  import opened Text
  import opened Records
  import opened Storage

  /** The front matter as the `front-matter` library returns it, with dates read as timestamps. */
  datatype Attributes = Attributes(
    title: Option<string>,
    date: Option<int>,
    tags: Option<seq<string>>,
    cover: Option<string>,
    author: Option<string>)

  /** What `frontMatter(text)` returns: the attributes and the body after them. */
  datatype Parsed = Parsed(attributes: Attributes, body: string)

  /** One entry of the GitHub contents listing; `downloadUrl` is "" where GitHub gives `null`. */
  datatype GitHubEntry = GitHubEntry(name: string, path: string, kind: string, downloadUrl: string)

  /**
   * The answers the outside world gives during one call: `readLocal(file)` is the
   * text of `assets/posts/<file>` (`None`: the request failed); `listing` is the
   * GitHub contents listing (`None`: the request failed or did not return an
   * array); `download(url)` is a raw file (`None`: the request failed or did not
   * return a string); `frontMatter(text)` is the library's result (`None`: it
   * threw); `now` is the current time.
   */
  datatype Fetcher = Fetcher(
    readLocal: string -> Option<string>,
    listing: Option<seq<GitHubEntry>>,
    download: string -> Option<string>,
    frontMatter: string -> Option<Parsed>,
    now: int)

  const DefaultManifest: seq<string> := ["post1.md"]
  const DefaultPageSize: nat := 10
  const ExcerptLength: nat := 200
  const Ellipsis := "..."
  const DefaultTitle := "Untitled"
  const InvalidTitle := "Invalid Post"
  const MarkdownExtension := ".md"

  // ---------------------------------------------------------------------------
  // Normalisation

  /** `value || fallback` on an optional string: absent and empty are both falsy. */
  function OrElse(value: Option<string>, fallback: string): string
  {
    if value.Some? && value.value != "" then value.value else fallback
  }

  /** With an empty fallback, `value || ''` is the value itself whenever there is one. */
  lemma OrEmpty(value: Option<string>)
    ensures OrElse(value, "") == value.GetOr("")
  {
  }

  /** The placeholder `parseMarkdown` returns when the front matter cannot be parsed. */
  function InvalidPost(slug: string, now: int): Post
  {
    Post(InvalidTitle, now, [], "", "", "", "", slug, GitHub, Some(0))
  }

  /**
   * `parseMarkdown(content, slug)`, given what `frontMatter(content)` returned:
   * the body is trimmed, the excerpt is its first 200 characters and an
   * ellipsis, and the reading time is `ceil(words / 200)` with the words counted
   * by `split(/\s+/)`.
   */
  function ParseMarkdown(parsed: Option<Parsed>, slug: string, now: int): (p: Post)
    ensures p.slug == slug && p.source == GitHub && p.title != ""
    ensures parsed.None? ==> p == InvalidPost(slug, now)
    ensures parsed.Some? ==>
      var a := parsed.value.attributes;
      && p.content == Trim(parsed.value.body)
      && p.excerpt == Take(p.content, ExcerptLength) + Ellipsis
      && |p.excerpt| <= ExcerptLength + |Ellipsis|
      && EndsWith(p.excerpt, Ellipsis)
      && p.readingTime == Some(MinutesFor(|SplitSpaces(p.content)|))
      && p.readingTime.value >= 1
      && (a.title.Some? && a.title.value != "" ==> p.title == a.title.value)
      && (a.title.None? || a.title.value == "" ==> p.title == DefaultTitle)
      && p.date == a.date.GetOr(now)
      && p.tags == a.tags.GetOr([])
      && p.cover == a.cover.GetOr("") && p.author == a.author.GetOr("")
  {
    match parsed
    case None => InvalidPost(slug, now)
    case Some(Parsed(a, rawBody)) =>
      var body := Trim(rawBody);
      var excerpt := Take(body, ExcerptLength) + Ellipsis;
      assert excerpt[|excerpt| - |Ellipsis|..] == Ellipsis;
      OrEmpty(a.cover);
      OrEmpty(a.author);
      Post(
        title := OrElse(a.title, DefaultTitle),
        date := a.date.GetOr(now),
        tags := a.tags.GetOr([]),
        cover := OrElse(a.cover, ""),
        author := OrElse(a.author, ""),
        content := body,
        excerpt := excerpt,
        slug := slug,
        source := GitHub,
        readingTime := Some(MinutesFor(|SplitSpaces(body)|)))
  }

  /** An empty or blank body still counts as one word, so it reads in one minute. */
  lemma ParseMarkdownBlankBody(a: Attributes, body: string, slug: string, now: int)
    requires IsBlank(body)
    ensures ParseMarkdown(Some(Parsed(a, body)), slug, now).readingTime == Some(1)
    ensures ParseMarkdown(Some(Parsed(a, body)), slug, now).excerpt == Ellipsis
  {
    assert Trim(body) == [];
    assert SplitSpaces([]) == [[]];
  }

  // ---------------------------------------------------------------------------
  // The local manifest

  /** The post `fetchPosts` builds for one manifest file: the body is neither trimmed nor timed. */
  function LocalPost(file: string, parsed: Parsed): Post
  {
    var a := parsed.attributes;
    Post(
      title := a.title.GetOr(""),
      date := a.date.GetOr(0),
      tags := a.tags.GetOr([]),
      cover := OrElse(a.cover, ""),
      author := OrElse(a.author, ""),
      content := parsed.body,
      excerpt := Take(parsed.body, ExcerptLength) + Ellipsis,
      slug := StripSuffix(file, MarkdownExtension),
      source := Local,
      readingTime := None)
  }

  /**
   * A local post keeps the body untrimmed and untimed, takes its slug from the
   * file name less a final ".md", and its excerpt is the body's first 200
   * characters and an ellipsis.
   */
  lemma LocalPostFields(file: string, parsed: Parsed)
    ensures var p := LocalPost(file, parsed);
      && p.source == Local && p.readingTime.None? && p.content == parsed.body
      && (EndsWith(file, MarkdownExtension) ==> p.slug + MarkdownExtension == file)
      && (!EndsWith(file, MarkdownExtension) ==> p.slug == file)
    ensures var p := LocalPost(file, parsed);
      && EndsWith(p.excerpt, Ellipsis) && |p.excerpt| <= ExcerptLength + |Ellipsis|
      && var cut := |p.excerpt| - |Ellipsis|;
        cut <= |parsed.body| && p.excerpt[..cut] == parsed.body[..cut]
        && (|parsed.body| <= ExcerptLength ==> p.excerpt == parsed.body + Ellipsis)
        && (|parsed.body| > ExcerptLength ==> p.excerpt == parsed.body[..ExcerptLength] + Ellipsis)
    ensures var p, a := LocalPost(file, parsed), parsed.attributes;
      && p.title == a.title.GetOr("") && p.date == a.date.GetOr(0) && p.tags == a.tags.GetOr([])
      && p.cover == a.cover.GetOr("") && p.author == a.author.GetOr("")
  {
    var excerpt := LocalPost(file, parsed).excerpt;
    assert excerpt[|excerpt| - |Ellipsis|..] == Ellipsis;
    assert excerpt[..|excerpt| - |Ellipsis|] == Take(parsed.body, ExcerptLength);
    OrEmpty(parsed.attributes.cover);
    OrEmpty(parsed.attributes.author);
  }

  /** Reading, then parsing, one manifest file; `None` when either step fails. */
  function LoadLocalFile(file: string, f: Fetcher): Option<Post>
  {
    match f.readLocal(file)
    case None => None
    case Some(text) =>
      match f.frontMatter(text)
      case None => None
      case Some(parsed) => Some(LocalPost(file, parsed))
  }

  /** `Promise.all` over the files: every post in file order, or `None` as soon as one fails. */
  function LoadAll(files: seq<string>, f: Fetcher): (r: Option<seq<Post>>)
    ensures r.Some? <==> forall i :: 0 <= i < |files| ==> LoadLocalFile(files[i], f).Some?
    ensures r.Some? ==> |r.value| == |files|
    ensures r.Some? ==> forall i :: 0 <= i < |files| ==> LoadLocalFile(files[i], f) == Some(r.value[i])
    decreases |files|
  {
    if files == [] then Some([])
    else
      match LoadLocalFile(files[0], f)
      case None => None
      case Some(p) =>
        match LoadAll(files[1..], f)
        case None =>
          assert forall i :: 0 < i < |files| ==> files[i] == files[1..][i - 1];
          None
        case Some(ps) =>
          assert forall i :: 0 < i < |files| ==> files[i] == files[1..][i - 1];
          Some([p] + ps)
  }

  /** `array.slice(start, end)` for non-negative bounds: the elements from `start` up to `end`, clamped. */
  function Slice<T>(s: seq<T>, start: nat, end: nat): (r: seq<T>)
    ensures start <= |s| && start <= end ==> |r| == (if end <= |s| then end else |s|) - start
    ensures start >= |s| || end <= start ==> r == []
    ensures forall i :: 0 <= i < |r| ==> start + i < |s| && r[i] == s[start + i]
  {
    var hi := if end <= |s| then end else |s|;
    var lo := if start <= hi then start else hi;
    s[lo..hi]
  }

  /** `posts` are local posts for `files`, one per file and in the same order. */
  ghost predicate LoadedFrom(posts: seq<Post>, files: seq<string>)
  {
    && |posts| == |files|
    && forall i :: 0 <= i < |posts| ==>
      posts[i].slug == StripSuffix(files[i], MarkdownExtension) && posts[i].source == Local
  }

  /** A page fetched from the number of posts already loaded continues the loaded prefix of the manifest. */
  lemma LoadedFromAppend(loaded: seq<Post>, page: seq<Post>, files: seq<string>, size: nat)
    requires |loaded| <= |files| && LoadedFrom(loaded, files[..|loaded|])
    requires page == [] || LoadedFrom(page, Slice(files, |loaded|, |loaded| + size))
    ensures |loaded + page| <= |files| && LoadedFrom(loaded + page, files[..|loaded + page|])
  {
    var all, start := loaded + page, |loaded|;
    forall i | 0 <= i < |all|
      ensures start + |page| <= |files|
      ensures all[i].slug == StripSuffix(files[i], MarkdownExtension) && all[i].source == Local
    {
      if i >= start {
        assert all[i] == page[i - start];
      }
    }
  }

  /**
   * `fetchPosts(start, limit)`: one post per manifest entry in
   * `slice(start, start + limit)`, in manifest order; if any read or parse
   * fails the whole batch is lost and the result is empty.
   */
  function FetchPosts(files: seq<string>, start: nat, limit: nat, f: Fetcher): (r: seq<Post>)
    ensures |r| <= limit
  {
    var page := Slice(files, start, start + limit);
    match LoadAll(page, f)
    case None => []
    case Some(posts) => posts
  }

  /** What a page holds: the posts of the manifest slice in order, or nothing when one of them fails. */
  lemma FetchPostsLoads(files: seq<string>, start: nat, limit: nat, f: Fetcher)
    ensures var r, page := FetchPosts(files, start, limit, f), Slice(files, start, start + limit);
      && (r == [] || LoadedFrom(r, page))
      && ((forall i :: 0 <= i < |page| ==> LoadLocalFile(page[i], f).Some?) ==> LoadedFrom(r, page))
      && ((exists i :: 0 <= i < |page| && LoadLocalFile(page[i], f).None?) ==> r == [])
      && (forall i :: 0 <= i < |r| ==> LoadLocalFile(page[i], f) == Some(r[i]))
  {
  }

  // ---------------------------------------------------------------------------
  // The GitHub repository

  /** The listing entries `loadFromGitHub` downloads: markdown files with a download URL. */
  predicate IsMarkdownEntry(e: GitHubEntry)
  {
    EndsWith(e.name, MarkdownExtension) && e.kind == "file" && e.downloadUrl != ""
  }

  /** `file.name.replace('.md', '')`: the first occurrence of ".md" is removed, wherever it is. */
  function GitHubSlug(name: string): string
  {
    ReplaceFirst(name, MarkdownExtension, "")
  }

  /** The GitHub slug is the name less its first ".md", and the name itself when there is none. */
  lemma GitHubSlugDropsFirstExtension(name: string)
    ensures !Contains(name, MarkdownExtension) ==> GitHubSlug(name) == name
    ensures Contains(name, MarkdownExtension) ==>
      var r := GitHubSlug(name);
      var i := FirstOccurrence(name, MarkdownExtension);
      |r| + |MarkdownExtension| == |name| && r[..i] == name[..i] && r[i..] == name[i + |MarkdownExtension|..]
  {
    ReplaceFirstAtFirstOccurrence(name, MarkdownExtension, "");
  }

  /** A markdown entry's name contains ".md", so its slug is three characters shorter than the name. */
  lemma MarkdownEntrySlug(e: GitHubEntry)
    requires IsMarkdownEntry(e)
    ensures Contains(e.name, MarkdownExtension)
    ensures |GitHubSlug(e.name)| + |MarkdownExtension| == |e.name|
  {
    ContainsIffOccurs(e.name, MarkdownExtension, |e.name| - |MarkdownExtension|);
    GitHubSlugDropsFirstExtension(e.name);
  }

  /** The entries whose download succeeds. */
  function Downloaded(f: Fetcher): GitHubEntry -> bool
  {
    (e: GitHubEntry) => f.download(e.downloadUrl).Some?
  }

  /** The post for an entry, read from its download (only ever applied to entries whose download succeeded). */
  function EntryPost(e: GitHubEntry, f: Fetcher): Post
  {
    ParseMarkdown(f.frontMatter(f.download(e.downloadUrl).GetOr("")), GitHubSlug(e.name), f.now)
  }

  function EntryPostOf(f: Fetcher): GitHubEntry -> Post
  {
    (e: GitHubEntry) => EntryPost(e, f)
  }

  /** The per-file fan-out: a failed download becomes `null` and is dropped. */
  function FetchEntries(entries: seq<GitHubEntry>, f: Fetcher): (r: seq<Post>)
    ensures |r| <= |entries|
  {
    FilterMap(entries, Downloaded(f), EntryPostOf(f))
  }

  /** `loadFromGitHub()`: a failed or malformed listing gives no posts. */
  function LoadFromGitHub(f: Fetcher): (r: seq<Post>)
    ensures f.listing.None? ==> r == []
    ensures forall i :: 0 <= i < |r| ==> r[i].source == GitHub
  {
    match f.listing
    case None => []
    case Some(entries) =>
      var md := Filter(entries, IsMarkdownEntry);
      FilterMapIsMapOfFilter(md, Downloaded(f), EntryPostOf(f));
      FetchEntries(md, f)
  }

  /** The fan-out drops exactly the entries whose download failed and keeps the others in listing order. */
  lemma FetchEntriesDropsFailures(entries: seq<GitHubEntry>, f: Fetcher)
    ensures var kept := Filter(entries, Downloaded(f));
      && |FetchEntries(entries, f)| == |kept|
      && forall i :: 0 <= i < |kept| ==>
        Downloaded(f)(kept[i]) && FetchEntries(entries, f)[i] == EntryPost(kept[i], f)
  {
    var kept := Filter(entries, Downloaded(f));
    FilterMapIsMapOfFilter(entries, Downloaded(f), EntryPostOf(f));
    FilterSelects(entries, Downloaded(f));
    forall i | 0 <= i < |kept| ensures Downloaded(f)(kept[i]) {
      assert kept[i] in kept;
    }
  }

  /**
   * What `loadFromGitHub` returns for a listing: the markdown entries, less
   * those whose download failed, each turned into a post, in listing order.
   */
  lemma GitHubSelection(f: Fetcher, listing: seq<GitHubEntry>)
    requires f.listing == Some(listing)
    ensures var kept := Filter(Filter(listing, IsMarkdownEntry), Downloaded(f));
      && |LoadFromGitHub(f)| == |kept|
      && forall i :: 0 <= i < |kept| ==>
        && IsMarkdownEntry(kept[i])
        && Downloaded(f)(kept[i])
        && LoadFromGitHub(f)[i] == EntryPost(kept[i], f)
        && LoadFromGitHub(f)[i].slug == GitHubSlug(kept[i].name)
    ensures (forall e :: e in listing && IsMarkdownEntry(e) ==> Downloaded(f)(e)) ==>
      |LoadFromGitHub(f)| == |Filter(listing, IsMarkdownEntry)|
  {
    var md := Filter(listing, IsMarkdownEntry);
    var kept := Filter(md, Downloaded(f));
    FetchEntriesDropsFailures(md, f);
    FilterSelects(listing, IsMarkdownEntry);
    FilterSelects(md, Downloaded(f));
    forall i | 0 <= i < |kept|
      ensures IsMarkdownEntry(kept[i]) && Downloaded(f)(kept[i])
    {
      assert kept[i] in kept;
    }
    if forall e :: e in listing && IsMarkdownEntry(e) ==> Downloaded(f)(e) {
      forall i | 0 <= i < |md| ensures Downloaded(f)(md[i]) {
        assert md[i] in md;
      }
      FilterKeepsAll(md, Downloaded(f));
    }
  }

  /** When ".md" occurs only at the end of the name, the GitHub slug is the local one. */
  lemma GitHubSlugIsSuffixStrip(name: string)
    requires EndsWith(name, MarkdownExtension)
    requires !Contains(name[..|name| - 1], MarkdownExtension)
    ensures GitHubSlug(name) == StripSuffix(name, MarkdownExtension)
  {
    var n := |name| - 3;
    assert OccursAt(name, MarkdownExtension, n);
    ContainsIffOccurs(name, MarkdownExtension, n);
    var i := FirstOccurrence(name, MarkdownExtension);
    if i < n {
      var t := name[..|name| - 1];
      assert i + 3 <= |t|;
      assert t[i..i + 3] == name[i..i + 3];
      assert OccursAt(t, MarkdownExtension, i);
      ContainsIffOccurs(t, MarkdownExtension, i);
      assert false;
    }
    assert GitHubSlug(name) == name[..n] by {
      assert i == n && name[n + 3..] == [];
    }
  }

  /** An earlier ".md" makes the two slug rules disagree: `x.mdy.md` is `xy.md` on GitHub, `x.mdy` locally. */
  lemma GitHubSlugDiffersFromSuffixStrip()
    ensures GitHubSlug("x.mdy.md") == "xy.md"
    ensures StripSuffix("x.mdy.md", MarkdownExtension) == "x.mdy"
  {
    var name := "x.mdy.md";
    assert OccursAt(name, MarkdownExtension, 1);
    ContainsIffOccurs(name, MarkdownExtension, 1);
    assert name[0] == 'x';
    assert !OccursAt(name, MarkdownExtension, 0);
    assert FirstOccurrence(name, MarkdownExtension) == 1;
    assert name[..1] + "" + name[4..] == "xy.md";
  }

  // ---------------------------------------------------------------------------
  // Aggregation

  function DateOf(p: Post): int
  {
    p.date
  }

  /** The sort in `getAllPosts`: local posts, then GitHub posts, newest first, ties in that order. */
  function Aggregate(local: seq<Post>, github: seq<Post>): (r: seq<Post>)
    ensures SortedDesc(r, DateOf)
    ensures multiset(r) == multiset(local + github)
  {
    SortDesc(local + github, DateOf)
  }

  /** Among posts with the same date, every local post precedes every GitHub one and each keeps its order. */
  lemma AggregateStable(local: seq<Post>, github: seq<Post>, date: int)
    ensures Filter(Aggregate(local, github), HasKey(DateOf, date))
         == Filter(local, HasKey(DateOf, date)) + Filter(github, HasKey(DateOf, date))
  {
    SortDescStable(local + github, DateOf, date);
    FilterAppend(local, github, HasKey(DateOf, date));
  }

  // ---------------------------------------------------------------------------
  // Search and filters

  /** The `searchPosts` test, for an already trimmed and lower-cased query. */
  predicate MatchesQuery(p: Post, q: string)
  {
    || Contains(ToLower(p.title), q)
    || (exists tag :: tag in p.tags && Contains(ToLower(tag), q))
    || Contains(ToLower(p.author), q)
    || Contains(ToLower(p.excerpt), q)
  }

  function QueryMatcher(q: string): Post -> bool
  {
    (p: Post) => MatchesQuery(p, q)
  }

  /** The posts `searchPosts(query)` keeps: all of them for a blank query, otherwise those matching it. */
  function SearchKeeps(query: string): Post -> bool
  {
    (p: Post) => IsBlank(query) || MatchesQuery(p, ToLower(Trim(query)))
  }

  /** The filter `searchPosts` applies to the aggregated posts. */
  function Search(posts: seq<Post>, query: string): (r: seq<Post>)
    ensures IsBlank(query) ==> r == posts
  {
    var q := ToLower(Trim(query));
    if q == [] then posts else Filter(posts, QueryMatcher(q))
  }

  /** What `searchPosts` keeps: exactly the posts `SearchKeeps` accepts, in order. */
  lemma SearchSelects(posts: seq<Post>, query: string)
    ensures SelectedBy(Search(posts, query), posts, SearchKeeps(query))
  {
    var q := ToLower(Trim(query));
    if q == [] {
      SelectedByAll(posts, SearchKeeps(query));
    } else {
      FilterSelects(posts, QueryMatcher(q));
      SelectedByEquivalent(Filter(posts, QueryMatcher(q)), posts, QueryMatcher(q), SearchKeeps(query));
    }
  }

  /** Some tag of `p` equals some selected tag, ignoring ASCII case. */
  predicate SharesTagIgnoringCase(p: Post, selected: seq<string>)
  {
    exists tag, wanted :: tag in p.tags && wanted in selected && ToLower(tag) == ToLower(wanted)
  }

  /** The posts `filterByTags(selected)` keeps: all of them when nothing is selected. */
  function TagsKeep(selected: seq<string>): Post -> bool
  {
    (p: Post) => selected == [] || SharesTagIgnoringCase(p, selected)
  }

  function LowerAll(tags: seq<string>): (r: seq<string>)
    ensures |r| == |tags| && forall i :: 0 <= i < |tags| ==> r[i] == ToLower(tags[i])
  {
    seq(|tags|, i requires 0 <= i < |tags| => ToLower(tags[i]))
  }

  function TagMatcher(lowerTags: seq<string>): Post -> bool
  {
    (p: Post) => exists tag :: tag in p.tags && ToLower(tag) in lowerTags
  }

  /** `filterByTags`: no selection is the identity; otherwise a post needs ANY one selected tag. */
  function FilterByTags(posts: seq<Post>, selected: seq<string>): (r: seq<Post>)
    ensures selected == [] ==> r == posts
    ensures SelectedBy(r, posts, TagsKeep(selected))
  {
    if selected == [] then
      SelectedByAll(posts, TagsKeep(selected));
      posts
    else
      var lowerTags := LowerAll(selected);
      assert forall p :: TagMatcher(lowerTags)(p) == TagsKeep(selected)(p) by {
        forall p
          ensures TagMatcher(lowerTags)(p) <==> SharesTagIgnoringCase(p, selected)
        {
          if TagMatcher(lowerTags)(p) {
            var tag :| tag in p.tags && ToLower(tag) in lowerTags;
            var i :| 0 <= i < |lowerTags| && lowerTags[i] == ToLower(tag);
            assert selected[i] in selected;
          }
          if SharesTagIgnoringCase(p, selected) {
            var tag, wanted :| tag in p.tags && wanted in selected && ToLower(tag) == ToLower(wanted);
            var i :| 0 <= i < |selected| && selected[i] == wanted;
            assert lowerTags[i] == ToLower(tag);
          }
        }
      }
      var r := Filter(posts, TagMatcher(lowerTags));
      FilterSelects(posts, TagMatcher(lowerTags));
      SelectedByEquivalent(r, posts, TagMatcher(lowerTags), TagsKeep(selected));
      r
  }

  /** The posts `filterByAuthor(query)` keeps: all of them for a blank query. */
  function AuthorKeeps(authorQuery: string): Post -> bool
  {
    (p: Post) => IsBlank(authorQuery) || Contains(ToLower(p.author), ToLower(Trim(authorQuery)))
  }

  function AuthorMatcher(q: string): Post -> bool
  {
    (p: Post) => Contains(ToLower(p.author), q)
  }

  /** `filterByAuthor`: a blank query is the identity; otherwise a case-insensitive substring test on the author. */
  function FilterByAuthor(posts: seq<Post>, authorQuery: string): (r: seq<Post>)
    ensures IsBlank(authorQuery) ==> r == posts
    ensures SelectedBy(r, posts, AuthorKeeps(authorQuery))
  {
    if IsBlank(authorQuery) then
      SelectedByAll(posts, AuthorKeeps(authorQuery));
      posts
    else
      var q := ToLower(Trim(authorQuery));
      var r := Filter(posts, AuthorMatcher(q));
      FilterSelects(posts, AuthorMatcher(q));
      SelectedByEquivalent(r, posts, AuthorMatcher(q), AuthorKeeps(authorQuery));
      r
  }

  /**
   * The posts `filterByDateRange(from, to)` keeps: all of them with neither
   * bound; otherwise those dated within the inclusive bounds, a missing start
   * being the epoch and a missing end being now.
   */
  function DatesKeep(from: Option<int>, to: Option<int>, now: int): Post -> bool
  {
    (p: Post) => (from.None? && to.None?) || (from.GetOr(0) <= p.date && p.date <= to.GetOr(now))
  }

  function DateMatcher(from: int, to: int): Post -> bool
  {
    (p: Post) => from <= p.date <= to
  }

  /** `filterByDateRange`: with neither bound it is the identity, otherwise an inclusive range test. */
  function FilterByDateRange(posts: seq<Post>, from: Option<int>, to: Option<int>, now: int): (r: seq<Post>)
    ensures from.None? && to.None? ==> r == posts
    ensures SelectedBy(r, posts, DatesKeep(from, to, now))
  {
    if from.None? && to.None? then
      SelectedByAll(posts, DatesKeep(from, to, now));
      posts
    else
      var lo, hi := from.GetOr(0), to.GetOr(now);
      var r := Filter(posts, DateMatcher(lo, hi));
      FilterSelects(posts, DateMatcher(lo, hi));
      SelectedByEquivalent(r, posts, DateMatcher(lo, hi), DatesKeep(from, to, now));
      r
  }

  /** The posts `applyFilters` keeps: those that pass all three filters. */
  function FiltersKeep(selected: seq<string>, authorQuery: string, from: Option<int>, to: Option<int>, now: int): Post -> bool
  {
    (p: Post) => TagsKeep(selected)(p) && AuthorKeeps(authorQuery)(p) && DatesKeep(from, to, now)(p)
  }

  /** `applyFilters`: tags, then author, then dates. */
  function ApplyFilters(posts: seq<Post>, selected: seq<string>, authorQuery: string,
                        from: Option<int>, to: Option<int>, now: int): (r: seq<Post>)
    ensures SelectedBy(r, posts, FiltersKeep(selected, authorQuery, from, to, now))
  {
    var byTags := FilterByTags(posts, selected);
    var byAuthor := FilterByAuthor(byTags, authorQuery);
    var byDate := FilterByDateRange(byAuthor, from, to, now);
    var both := (p: Post) => TagsKeep(selected)(p) && AuthorKeeps(authorQuery)(p);
    SelectedByCompose(posts, byTags, byAuthor, TagsKeep(selected), AuthorKeeps(authorQuery), both);
    SelectedByCompose(posts, byAuthor, byDate, both, DatesKeep(from, to, now),
                      FiltersKeep(selected, authorQuery, from, to, now));
    byDate
  }

  // ---------------------------------------------------------------------------
  // The view counter

  /** `getPostViews(slug)`: the stored count, and 0 when the key is absent. */
  function ViewCount(items: map<string, StoredValue>, slug: string): (n: int)
    ensures ViewKey(slug) !in items ==> n == 0
    ensures ViewKey(slug) in items && items[ViewKey(slug)].Number? ==> n == items[ViewKey(slug)].n
  {
    var key := ViewKey(slug);
    if key in items && items[key].Number? then items[key].n else 0
  }

  /** The store after `incrementPostViews(slug)`: one more view under that post's key, nothing else changed. */
  function Incremented(items: map<string, StoredValue>, slug: string): (r: map<string, StoredValue>)
    ensures ViewCount(r, slug) == ViewCount(items, slug) + 1
    ensures r.Keys == items.Keys + {ViewKey(slug)}
    ensures forall k :: k in items && k != ViewKey(slug) ==> r[k] == items[k]
  {
    items[ViewKey(slug) := Number(ViewCount(items, slug) + 1)]
  }

  /** `n` increments in sequence. */
  function IncrementedTimes(items: map<string, StoredValue>, slug: string, n: nat): map<string, StoredValue>
  {
    if n == 0 then items else Incremented(IncrementedTimes(items, slug, n - 1), slug)
  }

  lemma {:induction false} ViewsAfterIncrements(items: map<string, StoredValue>, slug: string, n: nat)
    ensures ViewCount(IncrementedTimes(items, slug, n), slug) == ViewCount(items, slug) + n
  {
    if n > 0 {
      ViewsAfterIncrements(items, slug, n - 1);
    }
  }

  /** `n` increments on an empty store read back as `n` views. */
  lemma ViewsFromEmptyStore(slug: string, n: nat)
    ensures ViewCount(IncrementedTimes(map[], slug, n), slug) == n
  {
    ViewsAfterIncrements(map[], slug, n);
  }

  /** Counting views of one post never changes the count of another. */
  lemma {:induction false} IncrementsLeaveOtherPosts(items: map<string, StoredValue>, slug: string, other: string, n: nat)
    requires other != slug
    ensures ViewCount(IncrementedTimes(items, slug, n), other) == ViewCount(items, other)
  {
    if n > 0 {
      IncrementsLeaveOtherPosts(items, slug, other, n - 1);
      if ViewKey(other) == ViewKey(slug) {
        ViewKeyInjective(other, slug);
      }
    }
  }

  // ---------------------------------------------------------------------------
  // The RSS feed

  const RssHead := "<?xml version=\"1.0\" encoding=\"UTF-8\" ?>\n  <rss version=\"2.0\">\n    <channel>\n      <title>MY BLOG </title>\n      <description>MED AMINE ZARGA BLOG</description>\n      <language>en-us</language>\n      "
  const RssTail := "\n    </channel>\n  </rss>"
  const ItemOpen := "\n    <item>"
  const ItemClose := "</item>\n  "

  /** `<tag>text</tag>`. */
  function Element(tag: string, text: string): string
  {
    "<" + tag + ">" + text + "</" + tag + ">"
  }

  /** `<tag><![CDATA[text]]></tag>`. */
  function CData(tag: string, text: string): string
  {
    Element(tag, "<![CDATA[" + text + "]]>")
  }

  /** The pieces of the `<item>` template between its opening and closing tags, in order. */
  function ItemFields(p: Post, utc: int -> string): seq<string>
  {
    ["\n      ", CData("title", p.title), "\n      ", Element("pubDate", utc(p.date)),
     "\n      ", CData("description", p.excerpt), "\n      ", CData("author", p.author), "\n    "]
  }

  /**
   * One `<item>`: the fixed tags around the fields; `utc` stands for
   * `new Date(...).toUTCString()`.
   */
  function RssItem(p: Post, utc: int -> string): (r: string)
    ensures StartsWith(r, ItemOpen) && EndsWith(r, ItemClose) && |r| >= |ItemOpen| + |ItemClose|
  {
    var r := ItemOpen + Concat(ItemFields(p, utc)) + ItemClose;
    assert r[..|ItemOpen|] == ItemOpen;
    assert r[|r| - |ItemClose|..] == ItemClose;
    r
  }

  /** The item holds the title, the excerpt as description and the author, each in a CDATA section, and the date as `pubDate`. */
  lemma RssItemHoldsPost(p: Post, utc: int -> string)
    ensures Contains(RssItem(p, utc), CData("title", p.title))
    ensures Contains(RssItem(p, utc), Element("pubDate", utc(p.date)))
    ensures Contains(RssItem(p, utc), CData("description", p.excerpt))
    ensures Contains(RssItem(p, utc), CData("author", p.author))
  {
    var fields := ItemFields(p, utc);
    FieldInItem(fields, 1);
    FieldInItem(fields, 3);
    FieldInItem(fields, 5);
    FieldInItem(fields, 7);
  }

  lemma FieldInItem(fields: seq<string>, k: nat)
    requires k < |fields|
    ensures Contains(ItemOpen + Concat(fields) + ItemClose, fields[k])
  {
    ConcatHasPart(fields, k);
    ContainsWithin(ItemOpen, Concat(fields), ItemClose, fields[k]);
  }

  /** `posts.map(item).join('')`. */
  function RssItems(posts: seq<Post>, utc: int -> string): (r: string)
    ensures posts == [] <==> r == []
    ensures |r| >= |posts| * (|ItemOpen| + |ItemClose|)
    decreases |posts|
  {
    if posts == [] then "" else RssItem(posts[0], utc) + RssItems(posts[1..], utc)
  }

  /** `generateRss(posts)`: the fixed channel envelope around the items. */
  function GenerateRss(posts: seq<Post>, utc: int -> string): (r: string)
    ensures StartsWith(r, RssHead) && EndsWith(r, RssTail)
    ensures |r| == |RssHead| + |RssItems(posts, utc)| + |RssTail|
    ensures r[|RssHead|..|r| - |RssTail|] == RssItems(posts, utc)
  {
    var r := RssHead + RssItems(posts, utc) + RssTail;
    assert r[..|RssHead|] == RssHead;
    assert r[|r| - |RssTail|..] == RssTail;
    r
  }

  /** The items of a concatenation are the items of each part, in order: one block per post. */
  lemma {:induction false} RssItemsAppend(a: seq<Post>, b: seq<Post>, utc: int -> string)
    ensures RssItems(a + b, utc) == RssItems(a, utc) + RssItems(b, utc)
    decreases |a|
  {
    if a == [] {
      assert a + b == b;
    } else {
      calc {
        RssItems(a + b, utc);
        { assert (a + b)[0] == a[0] && (a + b)[1..] == a[1..] + b; }
        RssItem(a[0], utc) + RssItems(a[1..] + b, utc);
        { RssItemsAppend(a[1..], b, utc); }
        RssItem(a[0], utc) + (RssItems(a[1..], utc) + RssItems(b, utc));
        { AppendAssoc(RssItem(a[0], utc), RssItems(a[1..], utc), RssItems(b, utc)); }
        RssItems(a, utc) + RssItems(b, utc);
      }
    }
  }

  /** Every post contributes its own item, the first post's item opening the feed's body. */
  lemma RssItemsOnePerPost(posts: seq<Post>, utc: int -> string)
    ensures posts != [] ==> StartsWith(RssItems(posts, utc), RssItem(posts[0], utc))
    ensures forall i :: 0 <= i < |posts| ==> Contains(RssItems(posts, utc), RssItem(posts[i], utc))
  {
    if posts != [] {
      var r := RssItems(posts, utc);
      assert r[..|RssItem(posts[0], utc)|] == RssItem(posts[0], utc);
    }
    forall i | 0 <= i < |posts|
      ensures Contains(RssItems(posts, utc), RssItem(posts[i], utc))
    {
      RssItemsAt(posts, i, utc);
      ContainsInfix(RssItems(posts[..i], utc), RssItem(posts[i], utc), RssItems(posts[i + 1..], utc));
    }
  }

  /** Post `i`'s item stands in the items between those of the posts before it and those after it. */
  lemma RssItemsAt(posts: seq<Post>, i: nat, utc: int -> string)
    requires i < |posts|
    ensures RssItems(posts, utc) == RssItems(posts[..i], utc) + RssItem(posts[i], utc) + RssItems(posts[i + 1..], utc)
  {
    var after := posts[i..];
    calc {
      RssItems(posts, utc);
      { PrefixJoin(posts, i); }
      RssItems(posts[..i] + after, utc);
      { RssItemsAppend(posts[..i], after, utc); }
      RssItems(posts[..i], utc) + RssItems(after, utc);
      { assert after[0] == posts[i] && after[1..] == posts[i + 1..]; }
      RssItems(posts[..i], utc) + (RssItem(posts[i], utc) + RssItems(posts[i + 1..], utc));
      { AppendAssoc(RssItems(posts[..i], utc), RssItem(posts[i], utc), RssItems(posts[i + 1..], utc)); }
      RssItems(posts[..i], utc) + RssItem(posts[i], utc) + RssItems(posts[i + 1..], utc);
    }
  }

  /** The feed of no posts is only the envelope. */
  lemma EmptyFeed(utc: int -> string)
    ensures GenerateRss([], utc) == RssHead + RssTail
  {
  }

  // ---------------------------------------------------------------------------
  // The service object

  class PostService {
    const localPostsFiles: seq<string>
    const pageSize: nat
    var loadedPosts: seq<Post>
    var hasMorePosts: bool

    /** The loaded posts are always those of a leading part of the manifest, in manifest order. */
    ghost predicate Valid()
      reads this
    {
      |loadedPosts| <= |localPostsFiles| && LoadedFrom(loadedPosts, localPostsFiles[..|loadedPosts|])
    }

    /** The service as constructed: nothing loaded and more to load. */
    constructor (files: seq<string>, size: nat)
      ensures Valid()
      ensures localPostsFiles == files && pageSize == size
      ensures loadedPosts == [] && hasMorePosts
    {
      localPostsFiles := files;
      pageSize := size;
      loadedPosts := [];
      hasMorePosts := true;
    }

    /** `hasMore()`. */
    function HasMore(): (r: bool)
      reads this
      ensures r == hasMorePosts
    {
      hasMorePosts
    }

    /** What `getAllLocalPosts` leaves behind, from the state it started in. */
    ghost predicate LocalRefreshed(wasLoaded: seq<Post>, hadMore: bool, f: Fetcher)
      reads this
    {
      if |localPostsFiles| <= pageSize then
        loadedPosts == FetchPosts(localPostsFiles, 0, |localPostsFiles|, f) && !hasMorePosts
      else
        && hasMorePosts == hadMore
        && loadedPosts == if wasLoaded == [] then FetchPosts(localPostsFiles, 0, pageSize, f) else wasLoaded
    }

    /**
     * `getAllLocalPosts()`: a manifest that fits one page is fetched whole and
     * marks the service exhausted; a longer one has its first page fetched only
     * while nothing is loaded.
     */
    method GetAllLocalPosts(f: Fetcher) returns (posts: seq<Post>)
      requires Valid()
      modifies this
      ensures Valid() && posts == loadedPosts
      ensures LocalRefreshed(old(loadedPosts), old(hasMorePosts), f)
    {
      if |localPostsFiles| <= pageSize {
        posts := FetchPosts(localPostsFiles, 0, |localPostsFiles|, f);
        FetchPostsLoads(localPostsFiles, 0, |localPostsFiles|, f);
        assert localPostsFiles[..|posts|] == Slice(localPostsFiles, 0, |localPostsFiles|) || posts == [];
        loadedPosts := posts;
        hasMorePosts := false;
      } else {
        if |loadedPosts| == 0 {
          var page := FetchPosts(localPostsFiles, 0, pageSize, f);
          FetchPostsLoads(localPostsFiles, 0, pageSize, f);
          assert localPostsFiles[..|page|] == Slice(localPostsFiles, 0, pageSize) || page == [];
          loadedPosts := page;
        }
        posts := loadedPosts;
      }
    }

    /**
     * `loadMorePosts()`: once exhausted it changes nothing; otherwise it
     * appends the next page, fetched from the number of posts already
     * loaded, and recomputes whether posts remain.
     */
    method LoadMorePosts(f: Fetcher) returns (posts: seq<Post>)
      requires Valid()
      modifies this
      ensures Valid() && posts == loadedPosts
      ensures !old(hasMorePosts) ==> loadedPosts == old(loadedPosts) && !hasMorePosts
      ensures old(hasMorePosts) ==>
        && loadedPosts == old(loadedPosts) + FetchPosts(localPostsFiles, |old(loadedPosts)|, pageSize, f)
        && hasMorePosts == (|loadedPosts| < |localPostsFiles|)
    {
      if !hasMorePosts {
        return loadedPosts;
      }
      var page := FetchPosts(localPostsFiles, |loadedPosts|, pageSize, f);
      FetchPostsLoads(localPostsFiles, |loadedPosts|, pageSize, f);
      LoadedFromAppend(loadedPosts, page, localPostsFiles, pageSize);
      loadedPosts := loadedPosts + page;
      hasMorePosts := |loadedPosts| < |localPostsFiles|;
      posts := loadedPosts;
    }

    /** `getAllPosts()`: the current local posts merged with a fresh GitHub load, newest first. */
    method GetAllPosts(f: Fetcher) returns (posts: seq<Post>)
      requires Valid()
      modifies this
      ensures Valid() && LocalRefreshed(old(loadedPosts), old(hasMorePosts), f)
      ensures posts == Aggregate(loadedPosts, LoadFromGitHub(f))
    {
      var local := GetAllLocalPosts(f);
      var github := LoadFromGitHub(f);
      posts := Aggregate(local, github);
    }

    /** `searchPosts(query)`: the aggregated posts that match the query. */
    method SearchPosts(f: Fetcher, query: string) returns (posts: seq<Post>)
      requires Valid()
      modifies this
      ensures Valid() && LocalRefreshed(old(loadedPosts), old(hasMorePosts), f)
      ensures posts == Search(Aggregate(loadedPosts, LoadFromGitHub(f)), query)
    {
      var all := GetAllPosts(f);
      posts := Search(all, query);
    }

    /** `getPostViews(slug)`: the stored count for the post, 0 when nothing is stored. */
    method GetPostViews(store: LocalStorage, slug: string) returns (views: int)
      ensures views == ViewCount(store.items, slug)
    {
      var stored := store.GetItem(ViewKey(slug));
      views := if stored.Some? && stored.value.Number? then stored.value.n else 0;
    }

    /** `incrementPostViews(slug)`: reads the count, then writes it back one higher. */
    method IncrementPostViews(store: LocalStorage, slug: string)
      modifies store
      ensures store.items == Incremented(old(store.items), slug)
    {
      var current := GetPostViews(store, slug);
      store.SetItem(ViewKey(slug), Number(current + 1));
    }
  }

  /** The configuration the service ships with: one manifest file in a page of ten. */
  method DefaultConfiguration(f: Fetcher) returns (posts: seq<Post>, more: bool)
    ensures !more
    ensures LoadLocalFile("post1.md", f).Some? ==> |posts| == 1 && posts[0].slug == "post1" && posts[0].source == Local
    ensures LoadLocalFile("post1.md", f).None? ==> posts == []
  {
    var service := new PostService(DefaultManifest, DefaultPageSize);
    posts := service.GetAllLocalPosts(f);
    more := service.HasMore();
    assert Slice(DefaultManifest, 0, 1) == ["post1.md"];
    assert StripSuffix("post1.md", MarkdownExtension) == "post1" by {
      assert "post1.md"[5..] == ".md";
    }
  }
}

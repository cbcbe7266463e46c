# A static blog's post, comment and theme services, in Dafny

This project models the core of a small Angular blog. The posts come from two places: markdown files bundled with the site under `assets/posts/`, and markdown files in a GitHub repository. Both are read through the `front-matter` library. The model covers:

- `PostService`. It normalises markdown into post records. It pages through the bundled manifest, lists and downloads the GitHub files, and merges both sets newest first. It also searches and filters posts, counts views in `localStorage`, and renders an RSS 2.0 feed.
- `BlogListComponent`, the list page. It keeps its own copy of the posts, offers the tags and authors found in them and runs its own filter pipeline.
- `BlogPostComponent`, the page of one post. It looks the route's slug up, times the reading, counts a view and adds reader comments.
- `CommentServiceService`, which keeps every comment of every post in one JSON list in `localStorage`.
- `ThemeService`, a light/dark switch. It is saved in `localStorage` and mirrored into the classes of the document's body.

The modules follow the source files:

| file | module | models |
|---|---|---|
| `records.dfy` | `Records` | the `Post` and `Comment` records |
| `storage.dfy` | `Storage` | `localStorage` as a class over a map, and the keys the services use |
| `seqs.dfy` | `Seqs` | `filter`, a `Set` read back in insertion order, and the stable `sort` |
| `text.dfy` | `Text` | the JavaScript string operations the code uses |
| `posts.dfy` | `Posts` | `PostService` |
| `comments.dfy` | `Comments` | `CommentServiceService` |
| `theme.dfy` | `Theme` | `ThemeService` |
| `blog_list.dfy` | `BlogList` | `BlogListComponent` |
| `blog_post.dfy` | `BlogPost` | `BlogPostComponent` |

Everything the code asks of the outside world during one call comes from a `Posts.Fetcher` value:

- the HTTP reads of bundled files;
- the GitHub listing and the downloads;
- the `front-matter` parser;
- the clock.

Every loading operation is therefore a function of its inputs. The services and components whose fields change are classes. Their methods are tied to specification functions of the old state, and the properties are proved about those functions.

## Model

| member | source | states |
|---|---|---|
| Storage.ViewKey | src/app/services/post.service.ts:346 | the view key is `post-views-` followed by the slug: the prefix, then exactly the slug |
| Storage.ViewKeyInjective | src/app/services/post.service.ts:345-353 | two posts with different slugs never share a view counter |
| Storage.ViewKeysAreNotOtherKeys | src/app/services/post.service.ts:346 | no view key is the comment list's key `blogComments` or the theme key `theme` |
| Storage.LocalStorage.GetItem | src/app/services/post.service.ts:346 | `getItem` gives the stored value exactly when the key is present, and `null` otherwise |
| Storage.LocalStorage.SetItem | src/app/services/post.service.ts:352 | `setItem` overwrites one key and leaves every other key as it was |
| Seqs.Filter | src/app/services/post.service.ts:248-266 | `filter` never lengthens its input |
| Seqs.FilterSelects | src/app/services/post.service.ts:248-266 | `filter` keeps exactly the elements that pass, with their multiplicities, as a subsequence of the input |
| Seqs.FilterAppend | src/app/services/post.service.ts:231 | filtering a concatenation filters each part |
| Seqs.FilterKeepsAll | src/app/services/post.service.ts:104 | a filter every element passes returns the input unchanged |
| Seqs.SelectedByCompose | src/app/services/post.service.ts:332-336 | filtering twice in a row keeps exactly what passes both tests |
| Seqs.FilterMap | src/app/services/post.service.ts:85-104 | mapping then dropping the `null`s is never longer than the input |
| Seqs.FilterMapIsMapOfFilter | src/app/services/post.service.ts:85-104 | mapping then dropping the `null`s equals mapping the kept elements, one result per kept element, in order |
| Seqs.Dedup | src/app/components/blog/blog-list/blog-list.component.ts:46-53 | a `Set` read back with `Array.from` holds each element once, and only elements of the input |
| Seqs.DedupSnoc | src/app/components/blog/blog-list/blog-list.component.ts:49 | `Set.add` appends an element only when it is new |
| Seqs.DedupFirstOccurrenceOrder | src/app/components/blog/blog-list/blog-list.component.ts:52-53 | the set's elements come out in the order in which they first occur |
| Seqs.IndexOf | src/app/components/blog/blog-list/blog-list.component.ts:52-53 | the first position of an element holds it, and no earlier position does |
| Seqs.InsertDesc | src/app/services/post.service.ts:231-233 | inserting into a newest-first list keeps it sorted and adds exactly that one element (as a multiset); every key is at most the inserted one or the old first one |
| Seqs.SortedCons | src/app/services/post.service.ts:231-233 | an element at least as new as the head of a newest-first list can go in front of it |
| Seqs.SortDesc | src/app/services/post.service.ts:231-233 | the sort gives a newest-first permutation of its input |
| Seqs.InsertDescStable | src/app/services/post.service.ts:231-233 | an inserted element goes before the elements with the same key |
| Seqs.SortDescStable | src/app/services/post.service.ts:231-233 | the sort is stable: elements with equal keys keep their input order |
| Text.TrimStart | src/app/services/post.service.ts:116 | the result is a suffix of the input, reached by dropping only white space, and it does not start with white space |
| Text.TrimEnd | src/app/services/post.service.ts:116 | the result is a prefix of the input, reached by dropping only white space, and it does not end with white space |
| Text.Trim | src/app/services/post.service.ts:116 | `trim` gives a string no longer than its input that neither starts nor ends with white space |
| Text.TrimEmptyIffBlank | src/app/services/post.service.ts:116 | trimming leaves nothing exactly when the input is all white space |
| Text.TrimKeepsMiddle | src/app/services/post.service.ts:116 | the trimmed string is the input less a blank prefix and a blank suffix: the run that starts where `trimStart` stops |
| Text.TrimOfTrimmed | src/app/components/blog/blog-post/blog-post.component.ts:89-94 | trimming an already trimmed string changes nothing |
| Text.TrimIdempotent | src/app/components/blog/blog-post/blog-post.component.ts:70 | `trim` is idempotent |
| Text.WordEnd | src/app/services/post.service.ts:118 | the first word ends at the first white space, or at the end of the input |
| Text.SplitSpaces | src/app/services/post.service.ts:118 | `split(/\s+/)` gives at least one piece, and no piece holds white space |
| Text.SeparatorsAreBlank | src/app/services/post.service.ts:118 | every cut `split(/\s+/)` makes is a non-empty run of white space |
| Text.SplitSpacesRoundTrip | src/app/services/post.service.ts:118 | the pieces, joined again with the white-space runs between them, give back the input, with one piece more than runs |
| Text.SplitTrimmedHasNoEmptyPiece | src/app/services/post.service.ts:116-118 | a non-empty trimmed string splits into non-empty words only |
| Text.WordCountPositive | src/app/components/blog/blog-post/blog-post.component.ts:70 | the page counts at least one word exactly when the text is not blank |
| Text.NoWordsInEmpty | src/app/components/blog/blog-post/blog-post.component.ts:70 | splitting the empty text gives one empty piece and no word |
| Text.WordCount | src/app/components/blog/blog-post/blog-post.component.ts:70 | the page's word count, the non-empty pieces of the trimmed text, never exceeds the number of pieces |
| Text.SplitLengthIsWordCount | src/app/services/post.service.ts:118 | the service's piece count equals the page's word count, except that a blank body still counts as one piece |
| Text.ToLower | src/app/services/post.service.ts:242 | `toLowerCase` keeps the length, maps each character and leaves no upper-case ASCII letter |
| Text.ToLowerIdempotent | src/app/services/post.service.ts:282-284 | lower-casing twice is lower-casing once |
| Text.OccursShift | src/app/services/post.service.ts:249 | an occurrence one position in is an occurrence in the tail |
| Text.FirstOccurrence | src/app/services/post.service.ts:96 | the first occurrence of a contained pattern is an occurrence, and no earlier position is one |
| Text.ContainsIffOccurs | src/app/services/post.service.ts:249 | `includes` holds exactly when the pattern occurs at some position |
| Text.ConcatAppend | src/app/services/post.service.ts:357-364 | `join('')` of two lists of parts is the join of each, one after the other |
| Text.ConcatHasPart | src/app/services/post.service.ts:357-364 | the result of `join('')` contains each of its parts |
| Text.ReplaceFirstAtFirstOccurrence | src/app/services/post.service.ts:96 | `replace` with a string pattern swaps only the first occurrence: the text before and after it is kept, and a string without the pattern is unchanged |
| Text.StripSuffix | src/app/services/post.service.ts:165 | `replace(/\.md$/, '')` removes the suffix when the name ends with it, and otherwise returns the name |
| Text.Take | src/app/services/post.service.ts:128 | `slice(0, n)` of a string longer than `n` is its prefix of exactly `n` characters, and otherwise the whole string |
| Text.MinutesFor | src/app/services/post.service.ts:119 | `Math.ceil(n / 200)` gives the fewest minutes covering `n` words at 200 a minute |
| Posts.ParseMarkdown | src/app/services/post.service.ts:112-149 | the slug and the `github` source are kept, and the title is never empty. An unparsable file becomes the `Invalid Post` placeholder. Otherwise the content is the trimmed body, the excerpt is at most 200 characters plus `...`, and the reading time is the ceiling of pieces / 200, at least 1. A missing or empty title becomes `Untitled`, a missing date the current time, missing tags `[]`, and a missing cover or author `''`; present values are kept |
| Posts.ParseMarkdownBlankBody | src/app/services/post.service.ts:116-128 | a blank body reads in one minute, and its excerpt is just the ellipsis |
| Posts.LocalPostFields | src/app/services/post.service.ts:162-178 | a bundled post is `local` with no reading time and the untrimmed body. Its slug is the file name less a final `.md`. Its excerpt is the body's first 200 characters followed by `...`, or the whole body and `...` when the body is at most 200 characters. Tags, cover and author default to `[]` and `''` |
| Posts.LoadAll | src/app/services/post.service.ts:153-181 | `Promise.all` succeeds exactly when every file loads, and then gives one post per file in file order |
| Posts.Slice | src/app/services/post.service.ts:155 | `slice(start, end)` is the clamped run of elements from `start` |
| Posts.FetchPosts | src/app/services/post.service.ts:151-187 | a page never holds more than `limit` posts |
| Posts.FetchPostsLoads | src/app/services/post.service.ts:151-187 | a page is one local post per manifest entry of `slice(start, start + limit)`, in order, with the `.md`-stripped slug. One failed read or parse empties the whole page |
| Posts.FetchEntries | src/app/services/post.service.ts:85-104 | the fan-out never yields more posts than entries |
| Posts.MarkdownEntrySlug | src/app/services/post.service.ts:79-83 | an entry kept by the listing filter contains `.md`, so its slug is three characters shorter than its name |
| Posts.GitHubSlugDropsFirstExtension | src/app/services/post.service.ts:96 | the GitHub slug is the name with its first `.md` cut out, and the name itself when there is none |
| Posts.LoadFromGitHub | src/app/services/post.service.ts:68-109 | a failed listing gives no posts, and every post is marked `github` |
| Posts.FetchEntriesDropsFailures | src/app/services/post.service.ts:85-104 | exactly the entries whose download failed are dropped; the others become posts in listing order |
| Posts.GitHubSelection | src/app/services/post.service.ts:79-104 | the GitHub posts are the markdown file entries with a download URL, less failed downloads, each parsed with slug `name.replace('.md','')`. With no failures there is one post per markdown entry |
| Posts.GitHubSlugIsSuffixStrip | src/app/services/post.service.ts:96 | when `.md` occurs only at the end of the name, the GitHub slug equals the local slug rule of line 165 |
| Posts.GitHubSlugDiffersFromSuffixStrip | src/app/services/post.service.ts:96 | with an earlier `.md` the two slug rules disagree: `x.mdy.md` gives `xy.md` on GitHub and `x.mdy` locally |
| Posts.Aggregate | src/app/services/post.service.ts:231-233 | the merged list is sorted newest first and is a permutation of local posts followed by GitHub posts |
| Posts.AggregateStable | src/app/services/post.service.ts:231-233 | among posts of one date, the local ones come first, then the GitHub ones, each in its own order |
| Posts.Search | src/app/services/post.service.ts:240-246 | a blank query returns every post unchanged |
| Posts.SearchSelects | src/app/services/post.service.ts:240-267 | a blank query keeps every post. Otherwise the result is exactly the posts whose title, a tag, the author or the excerpt contains the trimmed, lower-cased query, in order and with their multiplicities |
| Posts.LowerAll | src/app/services/post.service.ts:282 | `map(t => t.toLowerCase())` gives the selected tags lower-cased, position by position |
| Posts.FilterByTags | src/app/services/post.service.ts:280-286 | no selection returns every post. Otherwise the result is exactly the posts with at least one tag equal to a selected tag, ignoring case |
| Posts.FilterByAuthor | src/app/services/post.service.ts:292-298 | a blank query returns every post. Otherwise the result is exactly the posts whose lower-cased author contains the trimmed, lower-cased query |
| Posts.FilterByDateRange | src/app/services/post.service.ts:304-314 | with neither bound, every post is returned. Otherwise the result is exactly the posts dated within the inclusive range, the start defaulting to the epoch and the end to now |
| Posts.ApplyFilters | src/app/services/post.service.ts:320-341 | the three filters in a row keep exactly the posts that pass all three, in order |
| Posts.ViewCount | src/app/services/post.service.ts:345-348 | the view count is the stored number, or 0 when nothing is stored |
| Posts.Incremented | src/app/services/post.service.ts:350-353 | an increment raises that post's count by one and leaves every other key unchanged |
| Posts.ViewsAfterIncrements | src/app/services/post.service.ts:350-353 | `n` increments raise the count by exactly `n` |
| Posts.ViewsFromEmptyStore | src/app/services/post.service.ts:345-353 | on an empty store, `n` increments read back as `n` |
| Posts.IncrementsLeaveOtherPosts | src/app/services/post.service.ts:350-353 | increments of one post never change another post's count |
| Posts.RssItem | src/app/services/post.service.ts:357-364 | every item starts with the `<item>` opening and ends with the closing text |
| Posts.RssItemHoldsPost | src/app/services/post.service.ts:358-363 | an item holds the post's title, excerpt and author, each in a CDATA section of its tag, and the formatted date as `pubDate` |
| Posts.RssItems | src/app/services/post.service.ts:357-364 | the items are empty exactly for no posts, and are at least as long as one item's opening and closing text per post; their contents are given by `Posts.RssItemsAt` and `Posts.RssItemsAppend` |
| Posts.GenerateRss | src/app/services/post.service.ts:356-377 | the feed is the fixed channel header, then the items, then the closing tags |
| Posts.RssItemsAppend | src/app/services/post.service.ts:357-364 | the items of two lists of posts are the items of each, one after the other |
| Posts.RssItemsAt | src/app/services/post.service.ts:357-364 | post `i`'s item stands between the items of the posts before it and those of the posts after it |
| Posts.RssItemsOnePerPost | src/app/services/post.service.ts:357-364 | every post's item occurs in the items, and the first post's item comes first |
| Posts.EmptyFeed | src/app/services/post.service.ts:366-374 | the feed of no posts is the envelope alone |
| Posts.PostService.constructor | src/app/services/post.service.ts:47-50 | a new service has the given manifest and page size, nothing loaded, and more to load |
| Posts.PostService.HasMore | src/app/services/post.service.ts:272-274 | `hasMore()` returns the `hasMorePosts` flag: true on construction, set by `loadMorePosts` to "fewer posts loaded than manifest entries", and cleared by `getAllLocalPosts` for a manifest that fits one page, even when that page failed to load |
| Posts.PostService.GetAllLocalPosts | src/app/services/post.service.ts:189-207 | a manifest that fits one page is fetched whole and ends paging. A longer one fetches its first page only while nothing is loaded; otherwise the loaded posts are returned. The loaded posts always track a leading part of the manifest |
| Posts.LoadedFromAppend | src/app/services/post.service.ts:209-226 | appending a page read at the next offset keeps "the loaded posts are, in order, the first manifest entries" |
| Posts.PostService.LoadMorePosts | src/app/services/post.service.ts:209-226 | once exhausted, nothing changes. Otherwise the next page, fetched from the number already loaded, is appended, and `hasMore` becomes "fewer posts than manifest entries" |
| Posts.PostService.GetAllPosts | src/app/services/post.service.ts:227-236 | the result is the refreshed local posts merged with a fresh GitHub load, newest first |
| Posts.PostService.SearchPosts | src/app/services/post.service.ts:240-267 | the result is the search applied to the merged posts |
| Posts.PostService.GetPostViews | src/app/services/post.service.ts:345-348 | the result is the stored view count of the slug |
| Posts.PostService.IncrementPostViews | src/app/services/post.service.ts:350-353 | the store afterwards holds one more view for the slug and nothing else changes |
| Posts.DefaultConfiguration | src/app/services/post.service.ts:47-48 | with the shipped manifest `['post1.md']` and page size 10, one load gives the single post `post1` or none, and ends paging |
| Comments.StoredComments | src/app/services/comment-service.service.ts:27 | an absent `blogComments` key reads as the empty list |
| Comments.CommentsFor | src/app/services/comment-service.service.ts:26-29 | the result is exactly the stored comments with the post's slug, in storage order |
| Comments.WithComment | src/app/services/comment-service.service.ts:31-35 | adding a comment appends it to the stored list and changes no other key |
| Comments.AddThenGet | src/app/services/comment-service.service.ts:26-35 | a new comment appears last among its own post's comments, and among no other post's |
| Comments.NoCommentsInitially | src/app/services/comment-service.service.ts:27-28 | a store that never held comments gives every post an empty list |
| Comments.ViewCountsKeepComments | src/app/services/post.service.ts:352 | writing a view count never changes the stored comments |
| Comments.CommentService.GetCommentsForPost | src/app/services/comment-service.service.ts:26-29 | reads the stored comments of the slug |
| Comments.CommentService.AddComment | src/app/services/comment-service.service.ts:31-35 | the store afterwards is the old store with the comment appended |
| Theme.ClassOf | src/app/services/theme.service.ts:25 | the body class is the theme's name followed by `-theme`, one of the two theme classes |
| Theme.ThemeClassesDiffer | src/app/services/theme.service.ts:24 | the light and dark classes differ |
| Theme.Flip | src/app/services/theme.service.ts:19 | toggling picks the other theme |
| Theme.Restored | src/app/services/theme.service.ts:10-15 | the constructor picks dark exactly when `dark` was saved, and light for anything else or nothing |
| Theme.SavedThemeRestores | src/app/services/theme.service.ts:10-26 | a saved theme is restored as itself |
| Theme.WithThemeClass | src/app/services/theme.service.ts:24-25 | the body afterwards carries the theme's class and not the other one, and every other class is untouched |
| Theme.LatestThemeClassWins | src/app/services/theme.service.ts:24-25 | applying two themes in a row is applying the second one |
| Theme.ThemeService.constructor | src/app/services/theme.service.ts:9-16 | the service starts with the restored theme, saved and applied to the body |
| Theme.ThemeService.SetTheme | src/app/services/theme.service.ts:22-27 | the theme is recorded, saved and applied to the body, and the saved value and the body class agree with it |
| Theme.ThemeService.ToggleTheme | src/app/services/theme.service.ts:18-20 | the theme becomes the other one, saved and applied |
| Theme.ThemeService.GetTheme | src/app/services/theme.service.ts:29-31 | gives the current theme, which is the one saved and the one whose class the body carries |
| Theme.ToggleTwice | src/app/services/theme.service.ts:18-31 | toggling twice restores the theme, the store and the body's classes exactly |
| BlogList.SearchStep | src/app/components/blog/blog-list/blog-list.component.ts:68-75 | a blank query keeps every post. Otherwise the result is exactly the posts whose title, author or a tag contains the untrimmed, lower-cased query |
| BlogList.TagStep | src/app/components/blog/blog-list/blog-list.component.ts:76-80 | with the tags filter chosen and tags selected, only posts carrying every selected tag exactly stay |
| BlogList.AuthorStep | src/app/components/blog/blog-list/blog-list.component.ts:81-83 | with the author filter chosen and an author selected, only that exact author's posts stay |
| BlogList.DateStep | src/app/components/blog/blog-list/blog-list.component.ts:84-95 | with the date filter chosen, only posts within each bound that is present stay |
| BlogList.FilterPipeline | src/app/components/blog/blog-list/blog-list.component.ts:66-97 | the shown list is exactly the loaded posts that pass every stage, in order and with their multiplicities |
| BlogList.TagOccurrencesMembers | src/app/components/blog/blog-list/blog-list.component.ts:48-49 | the visited tags are exactly the tags of some post |
| BlogList.AuthorOccurrencesMembers | src/app/components/blog/blog-list/blog-list.component.ts:50 | the visited authors are exactly the non-empty authors of some post |
| BlogList.AddTags | src/app/components/blog/blog-list/blog-list.component.ts:49 | adding one post's tags gives the set of everything seen so far plus those tags |
| BlogList.OccurrencesStep | src/app/components/blog/blog-list/blog-list.component.ts:48-51 | one more post contributes its tags and, if non-empty, its author |
| BlogList.CollectTagsAndAuthors | src/app/components/blog/blog-list/blog-list.component.ts:46-51 | the loop collects the distinct tags and the distinct non-empty authors, in the order visited |
| BlogList.TagsOnOffer | src/app/components/blog/blog-list/blog-list.component.ts:52 | the tags on offer are each tag of some post, once, in order of first appearance |
| BlogList.AuthorsOnOffer | src/app/components/blog/blog-list/blog-list.component.ts:53 | the authors on offer are each non-empty author of some post, once, in order of first appearance |
| BlogList.BlogListComponent.constructor | src/app/components/blog/blog-list/blog-list.component.ts:16-28 | every field starts at its declared initial value |
| BlogList.BlogListComponent.ExtractTagsAndAuthors | src/app/components/blog/blog-list/blog-list.component.ts:45-54 | sets the distinct tags and non-empty authors of the loaded posts, changing no other field |
| BlogList.BlogListComponent.ClearFilterInputs | src/app/components/blog/blog-list/blog-list.component.ts:58-63 | the tag, author and date inputs are reset; the query, filter type and lists stay |
| BlogList.BlogListComponent.ApplyFilters | src/app/components/blog/blog-list/blog-list.component.ts:66-97 | the shown posts become the loaded posts that pass the pipeline, and no input changes |
| BlogList.BlogListComponent.HasMore | src/app/components/blog/blog-list/blog-list.component.ts:120-122 | the page's `hasMore()` is the service's `hasMorePosts` flag |
| BlogList.BlogListComponent.OnInit | src/app/components/blog/blog-list/blog-list.component.ts:30-44 | loads the merged posts, offers their tags and authors, shows the filtered list, and is not left loading. The query, the filter type, the selections and the dates stay as they were |
| BlogList.BlogListComponent.OnSearchChange | src/app/components/blog/blog-list/blog-list.component.ts:100-104 | the list becomes the service's search results for the query, and is not left loading. The shown list, the tags and authors on offer, the filter type, the selections and the dates stay as they were |
| BlogList.BlogListComponent.LoadMore | src/app/components/blog/blog-list/blog-list.component.ts:107-118 | loads the next page only when more remain and nothing is loading; otherwise nothing changes. The loading flag ends as it began. The query, the shown list, the tags and authors on offer, the filter type, the selections and the dates stay as they were |
| BlogPost.Message | src/app/components/blog/blog-post/blog-post.component.ts:45-73 | the three error texts the page shows |
| BlogPost.FindBySlug | src/app/components/blog/blog-post/blog-post.component.ts:61 | `find` gives nothing exactly when no post has the slug, and otherwise the first post with it |
| BlogPost.RemoveMarkers | src/app/components/blog/blog-post/blog-post.component.ts:68 | removing `#`, `*`, `>` and `-` leaves exactly the other characters, in order and each as often as it occurs |
| BlogPost.ContentReadingTime | src/app/components/blog/blog-post/blog-post.component.ts:63-71 | the page's reading time is at least 1 |
| BlogPost.ContentReadingTimeCeiling | src/app/components/blog/blog-post/blog-post.component.ts:66-71 | the reading time is 1 when no words are left after cleaning, and otherwise the ceiling of words / 200 |
| BlogPost.BlankContentTakesOneMinute | src/app/components/blog/blog-post/blog-post.component.ts:71 | a text left blank after cleaning reads in one minute |
| BlogPost.ShowFound | src/app/components/blog/blog-post/blog-post.component.ts:61-74 | a missing post reports `Post not found` and an empty post `Post content is empty`, both keeping the old reading time. A post with content is timed and keeps the old error |
| BlogPost.CommentToAdd | src/app/components/blog/blog-post/blog-post.component.ts:88-96 | no comment when the trimmed author or content is empty or no post is shown. Otherwise, the shown post's comment with both inputs trimmed |
| BlogPost.BlogPostComponent.constructor | src/app/components/blog/blog-post/blog-post.component.ts:17-37 | every field starts at its declared initial value |
| BlogPost.BlogPostComponent.NgOnInit | src/app/components/blog/blog-post/blog-post.component.ts:39-85 | without a slug only the error is set. Otherwise the posts are loaded, a view is counted and comments reloaded only if a post was shown before, and then the found post is shown and timed. The page is never left loading |
| BlogPost.BlogPostComponent.NgOnInitCorrected | src/app/components/blog/blog-post/blog-post.component.ts:50-74 | as `NgOnInit`, but the view is counted and the comments loaded for the post just found |
| BlogPost.BlogPostComponent.RecordVisit | src/app/components/blog/blog-post/blog-post.component.ts:54-56 | one more view is stored, and the page shows the new count and the post's comments |
| BlogPost.BlogPostComponent.ShowPost | src/app/components/blog/blog-post/blog-post.component.ts:61-74 | the page shows what `ShowFound` gives for the looked-up post |
| BlogPost.BlogPostComponent.AddComment | src/app/components/blog/blog-post/blog-post.component.ts:88-101 | a rejected comment changes nothing. An accepted one is stored, appended to the page's list, and the inputs are cleared |
| BlogPost.BlogPostComponent.SaveComment | src/app/components/blog/blog-post/blog-post.component.ts:97-100 | the comment is stored and shown last, and the inputs are cleared |
| BlogPost.FirstVisit | src/app/components/blog/blog-post/blog-post.component.ts:53-61 | a freshly created page shows the found post, but with no views, no comments and the store unchanged |
| BlogPost.FirstVisitCorrected | src/app/components/blog/blog-post/blog-post.component.ts:53-61 | with the corrected order, a fresh page that finds its post shows one view more than was stored, plus the post's stored comments |

## Findings

| source | as written | input that shows it | evidently intended | confidence | as-written member | corrected member |
|---|---|---|---|---|---|---|
| src/app/components/blog/blog-post/blog-post.component.ts:53-61 | the view is counted and the comments are loaded only if `this.post` is set, but that test runs before `this.post` is assigned | a page freshly created for an existing slug: it shows the post with 0 views and no comments, and the store is not touched | count the view and load the comments of the post just found | not executed; high | BlogPost.FirstVisit | BlogPost.FirstVisitCorrected |

The main model, `BlogPost.BlogPostComponent.NgOnInit`, stays as written. `NgOnInitCorrected` is its corrected counterpart.

## Left out

- Network, HTTP and `Promise`: every request is an answer in `Posts.Fetcher`, and each `async` method is one atomic step. Interleavings of overlapping calls are not modelled.
- The `front-matter` library is the parameter `Fetcher.frontMatter`. A parse that throws is `None`.
- Dates are integer timestamps: `new Date(...)`, `toISOString` and the default `new Date()` become `Fetcher.now`. An invalid date (`NaN`) is not modelled.
- `toUTCString` in the RSS items is the parameter `utc`.
- A bundled file with no `title` or `date` has `undefined` in the source. Here it has `""` and `0`.
- Posts.Search: with a bundled post that has no `title`, the source's `post.title.toLowerCase()` at src/app/services/post.service.ts:249 throws a `TypeError` for every non-blank query, so `searchPosts` rejects. The model reads the title as `""` and returns the matching posts.
- BlogList.SearchStep: the same missing title makes the list page's search at src/app/components/blog/blog-list/blog-list.component.ts:71 throw for every non-blank query. The model keeps the posts that match.
- BlogList.BlogListComponent.OnSearchChange: when `searchPosts` rejects as above, the source's handler at src/app/components/blog/blog-list/blog-list.component.ts:100-104 rejects too, leaving `isLoading` true and `posts` unchanged. The model always succeeds and clears the flag.
- Posts.GenerateRss: for a bundled post with no `title` or `date`, the source prints `undefined` in the title and `Invalid Date` as `pubDate` (src/app/services/post.service.ts:359-360). The model prints `""` and `utc(0)`.
- Posts.FilterByDateRange and BlogList.DateStep: in the source, a bundled post with no `date` becomes `new Date(undefined)`, an Invalid Date, and every comparison with it is false (src/app/services/post.service.ts:311-312, src/app/components/blog/blog-list/blog-list.component.ts:85-93). So the source drops such a post whenever any date bound applies. The model dates it 0 and keeps it whenever 0 lies in the range, for example when only an upper bound is given and the lower bound defaults to the epoch.
- Posts.Aggregate: the sort comparator of src/app/services/post.service.ts:232 gets `NaN` for a post with no `date`, which JavaScript treats as "equal" to every post, so where that post lands depends on the engine's sort. The model sorts it as dated 0, the epoch.
- Text.Take: `slice(0, 200)` at src/app/services/post.service.ts:128 and 174 counts UTF-16 code units, where a Dafny string counts code points. With characters outside the Basic Multilingual Plane (emoji, say), the source keeps fewer characters and can cut a surrogate pair in half. The model's bound of 203 for an excerpt is in code points. Posts.ParseMarkdown and Posts.LocalPostFields inherit this.
- The `console.error` and `console.log` calls (for example src/app/services/post.service.ts:135 and src/app/components/blog/blog-list/blog-list.component.ts:34) only write to the browser console. They are left out, because nothing reads what they write.
- `localStorage` holds strings in the source. Here a key holds the value its string denotes: a number, a word or a comment list. A view string that is not a number, which the source reads as `NaN`, is not modelled. A comment key holding something other than a JSON array is read as the empty list, where the source would throw.
- `toLowerCase` maps only ASCII letters.
- The two link and image regexes of the reading-time cleanup are the parameter `stripLinks`. The first replace, `/[\s\S]*?/g`, only matches empty strings and changes nothing, so the model omits it.
- `downloadRss` is left out because it builds a `Blob` and a DOM link. The HTML templates and Angular routing are left out too.
- The `catch` that sets `Failed to load post` in `ngOnInit` is not modelled. No step of the model can fail there.
- `Comment.date` is an integer timestamp rather than the `toISOString` string.
- The list page's `dateFrom`/`dateTo` are optional timestamps. The source's empty string counts as absent, so it is modelled as `None`.
- BlogPost.BlogPostComponent.AddComment: when no post is shown, the source throws a `TypeError` at `this.post!.slug` after the guard. The model turns that into no change.
- Posts.EmptyFeed: states that the feed of no posts is exactly the envelope. It does not separately prove, as a substring fact, that the envelope contains no `<item>`.
- BlogList.BlogListComponent.LoadMore ends with `isLoading` as it began. A call made while a load is running changes nothing and leaves the flag set, so "never left loading" holds only for a call that found it clear.
- Posts.RssItem inserts title, excerpt and author into `CDATA` sections unescaped, as the source does. A `]]>` inside them is not treated specially.
- Text.ReplaceFirst, Posts.GitHubSlug, Posts.IsMarkdownEntry and Posts.LocalPost carry no contract of their own. What they compute is stated by the lemmas `Text.ReplaceFirstAtFirstOccurrence`, `Posts.GitHubSlugDropsFirstExtension`, `Posts.MarkdownEntrySlug` and `Posts.LocalPostFields`, which keeps these heavily used definitions cheap for the verifier.
- `app.config.ts` and `app.routes.ts` are not part of this model.

/**
 * `CommentServiceService` (src/app/services/comment-service.service.ts): every
 * comment of every post in one JSON list under the `blogComments` key, which
 * only ever grows at its end.
 */
module Comments {
  import opened Seqs
  import opened Records
  import opened Storage

  /** `JSON.parse(localStorage.getItem('blogComments') || '[]')`: an absent key reads as the empty list. */
  function StoredComments(items: map<string, StoredValue>): (cs: seq<Comment>)
    ensures CommentsKey !in items ==> cs == []
    ensures CommentsKey in items && items[CommentsKey].CommentList? ==> cs == items[CommentsKey].comments
  {
    if CommentsKey in items && items[CommentsKey].CommentList? then items[CommentsKey].comments else []
  }

  /** The comments `getCommentsForPost(slug)` keeps. */
  function ForPost(slug: string): Comment -> bool
  {
    (c: Comment) => c.postSlug == slug
  }

  /** The comments of one post: exactly the stored ones with its slug, in storage order. */
  function CommentsFor(items: map<string, StoredValue>, slug: string): (cs: seq<Comment>)
    ensures SelectedBy(cs, StoredComments(items), ForPost(slug))
    ensures forall i :: 0 <= i < |cs| ==> cs[i].postSlug == slug
  {
    var cs := Filter(StoredComments(items), ForPost(slug));
    FilterSelects(StoredComments(items), ForPost(slug));
    assert forall i :: 0 <= i < |cs| ==> cs[i] in cs;
    cs
  }

  /** The store after `addComment(c)`: the list has `c` appended and no other key changes. */
  function WithComment(items: map<string, StoredValue>, c: Comment): (r: map<string, StoredValue>)
    ensures StoredComments(r) == StoredComments(items) + [c]
    ensures r.Keys == items.Keys + {CommentsKey}
    ensures forall k :: k in items && k != CommentsKey ==> r[k] == items[k]
  {
    items[CommentsKey := CommentList(StoredComments(items) + [c])]
  }

  /** A new comment shows up last among its own post's comments and nowhere else. */
  lemma AddThenGet(items: map<string, StoredValue>, c: Comment, slug: string)
    ensures CommentsFor(WithComment(items, c), slug)
         == CommentsFor(items, slug) + (if c.postSlug == slug then [c] else [])
  {
    FilterAppend(StoredComments(items), [c], ForPost(slug));
    FilterCons(c, [], ForPost(slug));
    assert [c] + [] == [c];
  }

  /** A store that has never held comments gives every post an empty list. */
  lemma NoCommentsInitially(slug: string)
    ensures CommentsFor(map[], slug) == []
  {
  }

  /** Counting a view never touches the comments. */
  lemma ViewCountsKeepComments(items: map<string, StoredValue>, slug: string, v: StoredValue)
    ensures StoredComments(items[ViewKey(slug) := v]) == StoredComments(items)
  {
    ViewKeysAreNotOtherKeys(slug);
  }

  class CommentService {
    /** The comment service holds no state of its own: everything lives in the store. */
    constructor ()
    {
    }

    /** `getCommentsForPost(slug)`. */
    method GetCommentsForPost(store: LocalStorage, slug: string) returns (cs: seq<Comment>)
      ensures cs == CommentsFor(store.items, slug)
    {
      var stored := store.GetItem(CommentsKey);
      var all := if stored.Some? && stored.value.CommentList? then stored.value.comments else [];
      cs := Filter(all, ForPost(slug));
    }

    /** `addComment(c)`: reads the list, pushes `c` and writes the list back. */
    method AddComment(store: LocalStorage, c: Comment)
      modifies store
      ensures store.items == WithComment(old(store.items), c)
    {
      var stored := store.GetItem(CommentsKey);
      var all := if stored.Some? && stored.value.CommentList? then stored.value.comments else [];
      all := all + [c];
      store.SetItem(CommentsKey, CommentList(all));
    }
  }
}

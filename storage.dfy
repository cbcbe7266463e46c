/**
 * The browser's `localStorage`, shared by the view counter, the comment store
 * and the theme service, with the keys each of them uses.
 */
module Storage {
  import opened Wrappers
  import opened Records

  /**
   * What a key holds once its string is read back: a number (a view count), a
   * plain word (the theme name) or a JSON array of comments.
   */
  datatype StoredValue = Number(n: int) | Word(w: string) | CommentList(comments: seq<Comment>)

  const ViewKeyPrefix := "post-views-"
  const CommentsKey := "blogComments"
  const ThemeKey := "theme"

  /** The key under which the views of the post with `slug` are counted. */
  function ViewKey(slug: string): (k: string)
    ensures |k| == |ViewKeyPrefix| + |slug| && k[..|ViewKeyPrefix|] == ViewKeyPrefix
    ensures k[|ViewKeyPrefix|..] == slug
  {
    ViewKeyPrefix + slug
  }

  /** Different posts count their views under different keys. */
  lemma ViewKeyInjective(a: string, b: string)
    requires ViewKey(a) == ViewKey(b)
    ensures a == b
  {
    assert a == ViewKey(a)[|ViewKeyPrefix|..];
    assert b == ViewKey(b)[|ViewKeyPrefix|..];
  }

  /** No view counter can overwrite the comment list or the theme. */
  lemma ViewKeysAreNotOtherKeys(slug: string)
    ensures ViewKey(slug) != CommentsKey && ViewKey(slug) != ThemeKey
  {
    assert ViewKey(slug)[0] == 'p';
    assert CommentsKey[0] == 'b' && ThemeKey[0] == 't';
  }

  class LocalStorage {
    var items: map<string, StoredValue>

    constructor (initial: map<string, StoredValue>)
      ensures items == initial
    {
      items := initial;
    }

    /** `localStorage.getItem(key)`; `None` is the `null` an absent key reads as. */
    function GetItem(key: string): (v: Option<StoredValue>)
      reads this
      ensures v.Some? <==> key in items
      ensures v.Some? ==> v.value == items[key]
    {
      if key in items then Some(items[key]) else None
    }

    /** `localStorage.setItem(key, value)`. */
    method SetItem(key: string, value: StoredValue)
      modifies this
      ensures items == old(items)[key := value]
    {
      items := items[key := value];
    }
  }
}

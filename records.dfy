/** The record shapes the services exchange: a blog post and a reader comment. */
module Records {
  import opened Wrappers

  /** Where a post came from: the bundled manifest or the GitHub repository. */
  datatype Source = Local | GitHub

  /**
   * A normalised post. `date` is the post's timestamp (what `new Date(post.date)`
   * denotes). `readingTime` is absent on local posts, which are built without one.
   */
  datatype Post = Post(
    title: string,
    date: int,
    tags: seq<string>,
    cover: string,
    author: string,
    content: string,
    excerpt: string,
    slug: string,
    source: Source,
    readingTime: Option<nat>)

  /** A comment as the comment service stores it; `date` is the creation time. */
  datatype Comment = Comment(postSlug: string, author: string, content: string, date: int)
}

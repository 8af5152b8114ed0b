/**
 The server entities as the client reads them. The server owns their shape;
 only the fields the modelled components look at are kept.
 */
module Entities {
  import opened Outcomes

  /** A video. A missing `title` or `description` reads as `""`, which the
      guarded sites (`|| ""`, `|| "Untitled Video"`, `?.slice`) treat alike;
      the home page's search filter does not guard the title. `likes` and
      `dislikes` are the arrays of user ids, possibly absent. */
  datatype Video = Video(
    id: string,
    title: string,
    description: string,
    tags: seq<string>,
    duration: nat,
    likes: Option<seq<string>>,
    dislikes: Option<seq<string>>)

  /** A comment; `authorId` is `comment.user?._id`. */
  datatype Comment = Comment(id: string, text: string, authorId: Option<string>)

  /** A channel with its ordered videos. */
  datatype Channel = Channel(id: string, name: string, description: string, videos: seq<Video>)

  function VideoId(v: Video): string { v.id }

  function CommentId(c: Comment): string { c.id }
}

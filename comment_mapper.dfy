/** Conversions between comments and their transfer shapes. The clock that
    `toComment` reads is the parameter `now`. */
module CommentMapper {
  import opened Entities

  datatype CommentDtoIn = CommentDtoIn(text: string)

  datatype CommentDtoOut = CommentDtoOut(id: int, text: string, authorName: string, created: int)

  function ToCommentDtoOut(c: Comment): (d: CommentDtoOut)
    ensures d.id == c.id && d.text == c.text && d.created == c.created
    ensures d.authorName == c.author.name
  {
    CommentDtoOut(c.id, c.text, c.author.name, c.created)
  }

  /** A fresh, unsaved comment: its id is still the default 0. */
  function ToComment(d: CommentDtoIn, item: Item, author: User, now: int): (c: Comment)
    ensures c.item == item && c.author == author && c.text == d.text
    ensures c.created == now && c.id == 0
  {
    Comment(0, d.text, item, author, now)
  }

  /** What a caller posts comes back unchanged, signed with the author's name
      and the moment it was made. */
  lemma CommentRoundTrip(d: CommentDtoIn, item: Item, author: User, now: int)
    ensures ToCommentDtoOut(ToComment(d, item, author, now))
            == CommentDtoOut(0, d.text, author.name, now)
  {
  }
}

/**
 * The message data the renderer consumes (the `data::message` and
 * `data::user` types of the client). Only what the renderer reads is kept.
 */
module Message {
  import opened Wrappers

  /** A colour named by IRC formatting codes; its representation is not part of this model. */
  type FormatColor(==, 00)

  /** A channel member. `nickname` is what `User::nickname` displays. */
  datatype User = User(nickname: string, username: Option<string>, hostname: Option<string>)

  /** The payload a clickable span hands back when it is activated. */
  datatype Link =
    | User(user: User)
    | Url(url: string)

  /** The explicit style directives of a formatted run. All fields are independent. */
  datatype Formatting = Formatting(
    fg: Option<FormatColor>,
    bg: Option<FormatColor>,
    underline: bool,
    strikethrough: bool,
    bold: bool,
    italics: bool,
    monospace: bool)

  /** One typed unit of message content. */
  datatype Fragment =
    | Text(s: string)
    | User(user: User)
    | Url(url: string)
    | Formatted(text: string, formatting: Formatting)

  /** A message body: plain text, or a sequence of fragments parsed upstream. */
  datatype Content =
    | Plain(text: string)
    | Fragments(fragments: seq<Fragment>)
}

/**
 * The message renderer of src/widget.rs: `message_content` turns a message
 * body into a displayable element, one styled span per fragment, and
 * `message_marker` renders the gutter marker glyph.
 */
module Widget {
  import opened Wrappers
  import opened Message
  import opened Theming
  import opened RichText

  /** What the caller's style function yields; applied to the whole element. */
  type Style(==, 00)

  /** The caller's link-activation callback, attached to a rich-text element. */
  type LinkHandler(==, 00)

  /** A layout width (a float in the toolkit), carried through unchanged. */
  type Width(==, 00)

  datatype Horizontal = Left | Center | Right

  /** The two selectable widgets the renderer produces. */
  datatype Element =
    | SelectableText(content: string, width: Option<Width>, alignment: Option<Horizontal>, style: Style)
    | SelectableRichText(spans: seq<Span>, onLink: LinkHandler, style: Style)

  /**
   * A formatting colour resolved against the palette. Absent when the
   * formatting names no colour or the palette has no entry for it; a miss is
   * never an error.
   */
  function Resolve(c: Option<FormatColor>, theme: Theme, env: Collaborators): (r: Option<Color>)
    ensures r.Some? <==> c.Some? && env.intoIced(c.value, theme.colors).Some?
    ensures r.Some? ==> r == env.intoIced(c.value, theme.colors)
  {
    match c
    case None => None
    case Some(color) => env.intoIced(color, theme.colors)
  }

  /** The nickname colour: seeded from the user's seed, or the primary text colour. */
  function NickSpanColor(user: User, theme: Theme, config: Config, env: Collaborators): (c: Color)
    ensures var nc := env.nickColor(user, theme.colors, config.nicknameColor);
      && (nc.seed.Some? ==> c == env.randomizeColor(nc.color, nc.seed.value))
      && (nc.seed.None? ==> c == theme.colors.textPrimary)
  {
    var NickColor(seed, color) := env.nickColor(user, theme.colors, config.nicknameColor);
    match seed
    case Some(seed) => env.randomizeColor(color, seed)
    case None => theme.colors.textPrimary
  }

  /**
   * The (bold, italics) font table. Any emphasis picks the monospace face
   * whose boldness and slant are exactly the flags; no emphasis keeps the
   * span's font. No other field changes.
   */
  function SelectFont(span: Span, bold: bool, italics: bool): (r: Span)
    ensures bold || italics ==> r.font.IsBold() == bold && r.font.IsItalic() == italics
    ensures !bold && !italics ==> r.font == span.font
    ensures r == span.(font := r.font)
  {
    match (bold, italics)
    case (true, true) => span.WithFont(MonoBoldItalics)
    case (true, false) => span.WithFont(MonoBold)
    case (false, true) => span.WithFont(MonoItalics)
    case (false, false) => span
  }

  /** The span one fragment renders as, field by field. */
  function FragmentSpan(f: Fragment, theme: Theme, config: Config, env: Collaborators): (s: Span)
    ensures f.Text? ==> s == Span(f.s, None, None, false, false, NoPadding, None, Regular, None)
    ensures f.User? ==>
      && s.text == f.user.nickname
      && s.link == Some(Link.User(f.user))
      && s.background == None && !s.underline && !s.strikethrough
      && s.padding == NoPadding && s.border == None && s.font == Regular
    ensures f.User? ==>
      var nc := env.nickColor(f.user, theme.colors, config.nicknameColor);
      && (nc.seed.Some? ==> s.color == Some(env.randomizeColor(nc.color, nc.seed.value)))
      && (nc.seed.None? ==> s.color == Some(theme.colors.textPrimary))
    ensures f.Url? ==>
      s == Span(f.url, Some(theme.colors.bufferUrl), None, false, false, NoPadding, None, Regular, Some(Link.Url(f.url)))
    ensures f.Formatted? ==>
      var fm := f.formatting;
      && s.text == f.text && s.link == None
      && s.underline == fm.underline && s.strikethrough == fm.strikethrough
      && s.background == Resolve(fm.bg, theme, env)
      && s.color == (if fm.monospace then Some(theme.colors.bufferCode) else Resolve(fm.fg, theme, env))
      && s.padding == (if fm.monospace then Padding(0, 4, 0, 4) else NoPadding)
      && s.border == (if fm.monospace then Some(Border(theme.colors.generalBorder, 1, 3)) else None)
      && (fm.bold || fm.italics ==> s.font.IsBold() == fm.bold && s.font.IsItalic() == fm.italics)
      && (!fm.bold && !fm.italics ==> s.font == Regular)
  {
    match f
    case Text(s) => Of(s)
    case User(user) =>
      Of(user.nickname)
        .WithColor(NickSpanColor(user, theme, config, env))
        .WithLink(Link.User(user))
    case Url(s) =>
      Of(s)
        .WithColor(theme.colors.bufferUrl)
        .WithLink(Link.Url(s))
    case Formatted(text, formatting) =>
      var span :=
        Of(text)
          .WithColorMaybe(Resolve(formatting.fg, theme, env))
          .WithBackgroundMaybe(Resolve(formatting.bg, theme, env))
          .WithUnderline(formatting.underline)
          .WithStrikethrough(formatting.strikethrough);
      var span :=
        if formatting.monospace then
          span
            .WithPadding(Symmetric(0, 4))
            .WithColor(theme.colors.bufferCode)
            .WithBorder(Border(theme.colors.generalBorder, 1, 3))
        else span;
      SelectFont(span, formatting.bold, formatting.italics)
  }

  /** The fragments, mapped in order to one span each. */
  function RenderFragments(fs: seq<Fragment>, theme: Theme, config: Config, env: Collaborators): (spans: seq<Span>)
    ensures |spans| == |fs|
    ensures forall i :: 0 <= i < |fs| ==> spans[i] == FragmentSpan(fs[i], theme, config, env)
  {
    if fs == [] then []
    else [FragmentSpan(fs[0], theme, config, env)] + RenderFragments(fs[1..], theme, config, env)
  }

  /**
   * `message_content`: a plain body becomes a selectable text showing it
   * unchanged; a fragment body becomes a selectable rich text with one span
   * per fragment, in order, wired to the caller's link handler. Both carry
   * the caller's style.
   */
  function MessageContent(
    content: Content, theme: Theme, onLink: LinkHandler, style: Style, config: Config, env: Collaborators
  ): (e: Element)
    ensures content.Plain? ==> e == SelectableText(content.text, None, None, style)
    ensures content.Fragments? ==>
      && e.SelectableRichText? && e.onLink == onLink && e.style == style
      && |e.spans| == |content.fragments|
      && forall i :: 0 <= i < |e.spans| ==> e.spans[i] == FragmentSpan(content.fragments[i], theme, config, env)
  {
    match content
    case Plain(text) => SelectableText(text, None, None, style)
    case Fragments(fragments) => SelectableRichText(RenderFragments(fragments, theme, config, env), onLink, style)
  }

  /** `MESSAGE_MARKER_TEXT`: a space followed by U+2219 BULLET OPERATOR. */
  const MessageMarkerText: string := " \U{2219}"

  /**
   * `message_marker`: the marker glyph as selectable text; right-aligned in
   * a box of the given width, or at its natural size when none is given.
   */
  function MessageMarker(width: Option<Width>, style: Style): (e: Element)
    ensures e.SelectableText? && e.style == style
    ensures e.content == [' ', '\U{2219}']
    ensures e.width == width
    ensures e.alignment.Some? <==> width.Some?
    ensures e.alignment.Some? ==> e.alignment == Some(Right)
  {
    var marker := SelectableText(MessageMarkerText, None, None, style);
    match width
    case Some(w) => marker.(width := Some(w), alignment := Some(Right))
    case None => marker
  }
}

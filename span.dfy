/**
 * The styled span the renderer builds (the toolkit's rich-text span) and the
 * fluent builder steps widget.rs chains together. Each builder step returns
 * a new span that differs from its receiver in one field.
 */
module RichText {
  import opened Wrappers
  import opened Message
  import opened Theming

  /**
   * The font variant of a span. `Regular` is a span with no font of its own
   * (it inherits the block's font); the other three are the monospace
   * family's bold, italic and bold-italic faces.
   */
  datatype Font = Regular | MonoBold | MonoItalics | MonoBoldItalics {
    predicate IsBold() { this == MonoBold || this == MonoBoldItalics }
    predicate IsItalic() { this == MonoItalics || this == MonoBoldItalics }
  }

  datatype Padding = Padding(top: nat, right: nat, bottom: nat, left: nat)

  const NoPadding: Padding := Padding(0, 0, 0, 0)

  /** The `[vertical, horizontal]` padding shorthand. */
  function Symmetric(vertical: nat, horizontal: nat): Padding {
    Padding(vertical, horizontal, vertical, horizontal)
  }

  datatype Border = Border(color: Color, width: nat, radius: nat)

  datatype Span = Span(
    text: string,
    color: Option<Color>,
    background: Option<Color>,
    underline: bool,
    strikethrough: bool,
    padding: Padding,
    border: Option<Border>,
    font: Font,
    link: Option<Link>)
  {
    function WithColor(c: Color): Span { this.(color := Some(c)) }

    /** Sets the foreground to `c`, which may be absent. */
    function WithColorMaybe(c: Option<Color>): Span { this.(color := c) }

    /** Sets the background when `c` is present; leaves it alone otherwise. */
    function WithBackgroundMaybe(c: Option<Color>): Span {
      match c
      case None => this
      case Some(b) => this.(background := Some(b))
    }

    function WithUnderline(b: bool): Span { this.(underline := b) }
    function WithStrikethrough(b: bool): Span { this.(strikethrough := b) }
    function WithPadding(p: Padding): Span { this.(padding := p) }
    function WithBorder(b: Border): Span { this.(border := Some(b)) }
    function WithFont(f: Font): Span { this.(font := f) }
    function WithLink(l: Link): Span { this.(link := Some(l)) }
  }

  /** A span showing `text` with nothing else set. */
  function Of(text: string): Span {
    Span(text, None, None, false, false, NoPadding, None, Regular, None)
  }
}

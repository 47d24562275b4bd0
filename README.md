# Message renderer of the halloy IRC client, in Dafny

This project models the message renderer of halloy's `src/widget.rs`.
`message_content` turns a message body into a selectable widget. A plain
body is shown unchanged. A fragment body (literal text, user mentions, URLs
and formatted runs) becomes one styled span per fragment, in order.
`message_marker` renders the small gutter glyph shown beside messages.

The renderer is pure, so the model is datatypes and functions:

- `wrappers.dfy`: `Option`.
- `message.dfy` (module `Message`): `User`, `Link`, `Formatting`, `Fragment`, `Content`.
- `theming.dfy` (module `Theming`): the palette entries the renderer reads, the
  configured nickname-colour mode, `NickColor`, and `Collaborators`. That last
  record holds the three deterministic functions the renderer calls but that
  live outside `widget.rs`: `User::nick_color`, `Color::into_iced` (a lookup
  that may miss) and `randomize_color`. Any total function of the right shape
  may stand for them, so every property below holds whatever they compute.
- `span.dfy` (module `RichText`): the styled `Span`, its `Font`, `Padding`
  and `Border`, and the one-field builder steps the source chains.
- `widget.dfy` (module `Widget`): `FragmentSpan`, `RenderFragments`,
  `MessageContent`, `MessageMarker`, written as the same builder chains as the source.
- `properties.dfy` (module `WidgetProperties`): lemmas that relate several renderings.

Colours, seeds, the colouring mode, the style value, the link handler and the
marker width are abstract types: the renderer only passes them along or
compares them.

Three facts about the code worth stating plainly:

- Monospace does not touch the background: src/widget.rs:96-105 sets the
  padding, the foreground and a border, and nothing else.
  `MonospaceOnlyDecorates` proves exactly that.
- The emphasised faces are the monospace family's `font::MONO_*` faces.
  With neither bold nor italics set, no font is set (`Regular` here means
  "no font of its own").
- `MESSAGE_MARKER_TEXT` is U+0020 SPACE followed by U+2219 BULLET OPERATOR.

## Model

| member | source | states |
|---|---|---|
| `Widget.Resolve` | src/widget.rs:83-92 | a formatting colour resolves only when one is named and the palette lookup hits, and then to the lookup's colour; a miss yields "no override", never an error |
| `Widget.NickSpanColor` | src/widget.rs:64-72 | a mention's colour is the seeded pseudo-random colour of the nick colour's base when it has a seed, and the theme's primary text colour when it has none |
| `Widget.SelectFont` | src/widget.rs:107-118 | with bold or italics set, the chosen face's boldness and slant equal the two flags; with neither set, the font is unchanged; no other span field changes |
| `Widget.FragmentSpan` | src/widget.rs:61-121 | the per-fragment rules: Text has only its text; a mention shows the nickname, links to the user, and is coloured by the seeded colour when the nick colour has a seed and by the primary text colour when it has none; a URL shows and links to itself in the URL colour; a formatted run copies underline and strikethrough, takes its background from `bg`, its foreground from `fg` unless monospace replaces it with the code colour, gets padding [0,4] and a radius-3 width-1 border in the border colour exactly when monospace, and its font from the table |
| `Widget.RenderFragments` | src/widget.rs:59-123 | exactly one span per fragment, and span i is fragment i's span |
| `Widget.MessageContent` | src/widget.rs:49-129 | a plain body is shown as its text, unchanged, with no width or alignment; a fragment body becomes rich text with one span per fragment in order, carrying the caller's link handler; both carry the caller's style |
| `Widget.MessageMarker` | src/widget.rs:131-148 | the marker text is always space followed by U+2219; with a width it has that width and right alignment; without one, neither is set |
| `WidgetProperties.FontTable` | src/widget.rs:107-118 | the four rows of the (bold, italics) table: MonoBoldItalics, MonoBold, MonoItalics, and no font override |
| `WidgetProperties.MonospaceOnlyDecorates` | src/widget.rs:96-105 | turning monospace on changes only the foreground (to the code colour), the padding and the border; background, font, flags, text and link are the same either way |
| `WidgetProperties.SeededNickColorIsStable` | src/widget.rs:63-72 | two mentions whose nick colours have the same seed and base colour get the same foreground, across users, themes and configurations |
| `WidgetProperties.LookupMissNeverOverrides` | src/widget.rs:82-99 | a formatted run has no background when `bg` is absent or its lookup misses, monospace or not; without monospace it has no foreground when `fg` is absent or its lookup misses |
| `WidgetProperties.RenderFragmentsAppend` | src/widget.rs:59-123 | rendering two runs of fragments side by side gives their spans concatenated |
| `WidgetProperties.LinksShowTheirTarget` | src/widget.rs:74-80 | a span is clickable exactly when its fragment is a mention or a URL, and a clickable span shows the nickname or URL it links to |
| `WidgetProperties.SpansSpellFragments` | src/widget.rs:62-94 | the spans' texts, concatenated, are the fragments' texts concatenated: styling adds, drops and reorders nothing |

## Left out

- The toolkit plumbing: `selectable_text`, `selectable_rich_text`, `.into()`, the `Element` and other type aliases (src/widget.rs:39-47). They are GUI glue. `Element` here keeps only what the renderer decides: the text or spans, width, alignment, style and link handler.
- The style function and the `on_link` callback: they are opaque values attached to the element. Calling them happens in the toolkit, not in the renderer.
- The submodule declarations and re-exports (src/widget.rs:10-37). Those modules are not part of this model.
- The internals of `nick_color`, `into_iced` and `randomize_color`. They live in another crate and do colour arithmetic, so they are arbitrary deterministic functions in `Collaborators`.
- The float width of the marker. It is carried through as an abstract `Width`; no arithmetic is done on it.
- The font data behind `font::MONO_*`. Fonts are tags.
- The palette entries the renderer does not read itself. They are an abstract `rest` field of `Palette`, so the colour lookups still see the whole palette but the model says nothing about them.
- The toolkit's own representation of a span's background and border (it stores them together in one highlight record). The model keeps them as separate fields, and the border's colour is the theme's border colour.
- Span attributes the renderer never sets (size, line height). They are not modelled.
- A user's identity beyond the nickname. It is reduced to optional username and host fields, carried unchanged into the link.

/**
 * The theme palette, the configuration the renderer reads, and the
 * deterministic colour collaborators it calls (`User::nick_color`,
 * `formatting::Color::into_iced`, `theme::randomize_color`). Their code is
 * not part of this model, so they are fields of `Collaborators`: any total,
 * deterministic functions of the right shape.
 */
module Theming {
  import opened Wrappers
  import opened Message

  /** A display colour; its channels are not part of this model. */
  type Color(==, 00)

  /** A per-user seed for the seeded pseudo-random nickname colour. */
  type Seed(==, 00)

  /** The configured nickname-colouring mode (defined by the configuration, not by the renderer). */
  type NickColorKind(==, 00)

  /** The palette entries the renderer does not read itself. */
  type PaletteRest(==, 00)

  /** A theme's palette: the named entries the renderer reads, and the rest. */
  datatype Palette = Palette(
    textPrimary: Color,
    bufferUrl: Color,
    bufferCode: Color,
    generalBorder: Color,
    rest: PaletteRest)

  /** A theme snapshot; `colors` is what `Theme::colors` returns. */
  datatype Theme = Theme(colors: Palette)

  /** `config.buffer.channel.message.nickname_color`. */
  datatype Config = Config(nicknameColor: NickColorKind)

  /** What `User::nick_color` resolves: an optional seed and a base colour. */
  datatype NickColor = NickColor(seed: Option<Seed>, color: Color)

  datatype Collaborators = Collaborators(
    nickColor: (User, Palette, NickColorKind) -> NickColor,
    intoIced: (FormatColor, Palette) -> Option<Color>,
    randomizeColor: (Color, Seed) -> Color)
}

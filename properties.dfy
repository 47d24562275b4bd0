/** Properties of the message renderer that relate several renderings. */
module WidgetProperties {
  import opened Wrappers
  import opened Message
  import opened Theming
  import opened RichText
  import opened Widget

  /** The (bold, italics) font table of a formatted run, row by row. */
  lemma FontTable(text: string, fm: Formatting, theme: Theme, config: Config, env: Collaborators)
    ensures var font := FragmentSpan(Formatted(text, fm), theme, config, env).font;
      && (fm.bold && fm.italics ==> font == MonoBoldItalics)
      && (fm.bold && !fm.italics ==> font == MonoBold)
      && (!fm.bold && fm.italics ==> font == MonoItalics)
      && (!fm.bold && !fm.italics ==> font == Regular)
  {
  }

  /**
   * Monospace only decorates: turning it on replaces the foreground with the
   * code colour and adds the padding and border, and changes nothing else.
   * In particular the background from `bg` and the font are the same either way.
   */
  lemma MonospaceOnlyDecorates(text: string, fm: Formatting, theme: Theme, config: Config, env: Collaborators)
    ensures var plain := FragmentSpan(Formatted(text, fm.(monospace := false)), theme, config, env);
      FragmentSpan(Formatted(text, fm.(monospace := true)), theme, config, env)
      == plain.(color := Some(theme.colors.bufferCode), padding := Padding(0, 4, 0, 4),
                border := Some(Border(theme.colors.generalBorder, 1, 3)))
  {
  }

  /**
   * A seeded nickname colour depends only on the seed and the base colour:
   * two mentions whose nick colours agree get the same foreground, whatever
   * the users, themes and configurations (the primary text colour plays no part).
   */
  lemma SeededNickColorIsStable(
    u1: User, theme1: Theme, config1: Config,
    u2: User, theme2: Theme, config2: Config,
    env: Collaborators)
    requires env.nickColor(u1, theme1.colors, config1.nicknameColor)
          == env.nickColor(u2, theme2.colors, config2.nicknameColor)
    requires env.nickColor(u1, theme1.colors, config1.nicknameColor).seed.Some?
    ensures FragmentSpan(Fragment.User(u1), theme1, config1, env).color
         == FragmentSpan(Fragment.User(u2), theme2, config2, env).color
  {
  }

  /**
   * A formatting colour that is absent or that the palette cannot resolve
   * leaves its field unset: the background always, the foreground unless
   * monospace replaces it.
   */
  lemma LookupMissNeverOverrides(text: string, fm: Formatting, theme: Theme, config: Config, env: Collaborators)
    ensures var s := FragmentSpan(Formatted(text, fm), theme, config, env);
      && (fm.bg.None? || env.intoIced(fm.bg.value, theme.colors).None? ==> s.background == None)
      && (!fm.monospace && (fm.fg.None? || env.intoIced(fm.fg.value, theme.colors).None?) ==> s.color == None)
  {
  }

  /** Rendering is compositional: the spans of two fragment runs side by side are the runs' spans concatenated. */
  lemma RenderFragmentsAppend(a: seq<Fragment>, b: seq<Fragment>, theme: Theme, config: Config, env: Collaborators)
    ensures RenderFragments(a + b, theme, config, env)
         == RenderFragments(a, theme, config, env) + RenderFragments(b, theme, config, env)
  {
  }

  /** Whether a span offers a link, and whether what it shows is what the link targets. */
  predicate ShowsItsLink(s: Span) {
    match s.link
    case None => true
    case Some(User(u)) => s.text == u.nickname
    case Some(Url(url)) => s.text == url
  }

  /** Exactly the mentions and URLs of a message are clickable, and each shows its own target. */
  lemma LinksShowTheirTarget(fs: seq<Fragment>, theme: Theme, config: Config, env: Collaborators, i: nat)
    requires i < |fs|
    ensures var s := RenderFragments(fs, theme, config, env)[i];
      && (s.link.Some? <==> fs[i].User? || fs[i].Url?)
      && ShowsItsLink(s)
  {
  }

  /** The text a fragment contributes to the message. */
  function FragmentText(f: Fragment): string {
    match f
    case Text(s) => s
    case User(u) => u.nickname
    case Url(url) => url
    case Formatted(text, _) => text
  }

  function FragmentsText(fs: seq<Fragment>): string {
    if fs == [] then [] else FragmentText(fs[0]) + FragmentsText(fs[1..])
  }

  function SpansText(spans: seq<Span>): string {
    if spans == [] then [] else spans[0].text + SpansText(spans[1..])
  }

  /** Styling never adds, drops or reorders characters: the spans spell out the fragments' text. */
  lemma {:induction false} SpansSpellFragments(fs: seq<Fragment>, theme: Theme, config: Config, env: Collaborators)
    ensures SpansText(RenderFragments(fs, theme, config, env)) == FragmentsText(fs)
  {
    if fs != [] {
      var spans := RenderFragments(fs, theme, config, env);
      assert spans[1..] == RenderFragments(fs[1..], theme, config, env);
      SpansSpellFragments(fs[1..], theme, config, env);
    }
  }
}

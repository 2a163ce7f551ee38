/** What the sign software takes from its platform and from libraries whose
    code is not modelled here: the colour resources, the next frame of the
    thinking animation, the heart-emoji rewrite, upper-casing, and the
    tracks the DJ software reports. */
module Platform {
  import opened Message

  /** The colour resources the scheduler asks the platform for. */
  datatype Palette =
    | Instagram | InstaHandle | Twitter | SoundCloud | Twitch | Green | Pink
    | ChonkySlideDefaultPink | IconDefaultBlue

  /** The collaborators, as pure functions:
      `colorOf` is `context.getColor(R.color.…)`, `firstThought(c)` is
      `GPTThinking(colorCycle = c)` with its remaining defaults, `thinkMore`
      is `GPTThinking.thinkMore()`, `hearts` is `convertHeartEmojis()` and
      `upper` is `toUpperCasePreservingASCIIRules()`. */
  datatype Env = Env(
    colorOf: Palette -> int,
    firstThought: int -> ThinkingFrame,
    thinkMore: ThinkingFrame -> ThinkingFrame,
    hearts: string -> string,
    upper: string -> string)

  /** A track the DJ software reports; equal tracks are the same track. */
  datatype Track = Track(artist: string, title: string, isEmpty: bool)
}

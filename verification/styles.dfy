/** The style side of `generate_video_prompt` (main.py:314-389): the emoji
    prefix of the selected label is cut off, the remaining name is looked
    up in a table of seven (rules, camera, lighting) profiles with a
    fallback to the default profile, and everything is written into a
    fixed prompt template. */
module Styles {
  import opened Text
  import opened Optional

  // ---------------------------------------------------------------------
  // Style names

  /** `style.split(" ", 1)[1] if " " in style else style`: everything after
      the first space, or the whole label when it has none. */
  function StyleName(style: string): (name: string)
    ensures ' ' !in style ==> name == style
    ensures ' ' in style ==>
      |name| < |style|
      && style == style[..|style| - |name| - 1] + [' '] + name
      && ' ' !in style[..|style| - |name| - 1]
  {
    var i := Find(style, ' ');
    if i < |style| then
      assert style == style[..i] + [' '] + style[i + 1..];
      style[i + 1..]
    else style
  }

  /** Cutting at the first space undoes prefixing a space-free head. */
  lemma StyleNameAfterPrefix(prefix: string, name: string)
    requires ' ' !in prefix
    ensures StyleName(prefix + [' '] + name) == name
  {
    var style := prefix + [' '] + name;
    assert style == prefix + ([' '] + name);
    FindAfter(prefix, [' '] + name, ' ');
    assert Find([' '] + name, ' ') == 0;
    assert style[|prefix| + 1..] == name;
  }

  /** The seven entries of the style menu (main.py:168-176). */
  datatype Style =
    | StrictRealism
    | CinematicMovie
    | DisneyPixar
    | CyberpunkNeon
    | VintageFilmGrain
    | OilPaintingArt
    | DreamyWatercolor

  /** The key of each entry in the profile table. */
  function Name(s: Style): string {
    match s
    case StrictRealism => "Strict Realism (Default)"
    case CinematicMovie => "Cinematic Movie"
    case DisneyPixar => "Disney/Pixar 3D"
    case CyberpunkNeon => "Cyberpunk/Neon"
    case VintageFilmGrain => "Vintage Film Grain"
    case OilPaintingArt => "Oil Painting Art"
    case DreamyWatercolor => "Dreamy Watercolor"
  }

  /** The emoji each menu label starts with. */
  function Emoji(s: Style): char {
    match s
    case StrictRealism => '\U{1f3af}'
    case CinematicMovie => '\U{1f3ac}'
    case DisneyPixar => '\U{1f3aa}'
    case CyberpunkNeon => '\U{1f303}'
    case VintageFilmGrain => '\U{1f4fc}'
    case OilPaintingArt => '\U{1f3a8}'
    case DreamyWatercolor => '\U{1f30a}'
  }

  /** The label the menu offers, e.g. "🎬 Cinematic Movie". */
  function Label(s: Style): string {
    [Emoji(s)] + " " + Name(s)
  }

  /** The table lookup by key: the entry whose name is `name`, if any. */
  function Parse(name: string): Option<Style> {
    if name == Name(StrictRealism) then Some(StrictRealism)
    else if name == Name(CinematicMovie) then Some(CinematicMovie)
    else if name == Name(DisneyPixar) then Some(DisneyPixar)
    else if name == Name(CyberpunkNeon) then Some(CyberpunkNeon)
    else if name == Name(VintageFilmGrain) then Some(VintageFilmGrain)
    else if name == Name(OilPaintingArt) then Some(OilPaintingArt)
    else if name == Name(DreamyWatercolor) then Some(DreamyWatercolor)
    else None
  }

  /** Different entries have different keys. */
  lemma NameInjective(s: Style, t: Style)
    requires Name(s) == Name(t)
    ensures s == t
  {
    assert |Name(s)| == |Name(t)|;
    if |Name(s)| == 15 {
      assert Name(s)[0] == Name(t)[0];
    }
  }

  /** The lookup finds an entry exactly when the name is its key. */
  lemma ParseName(name: string, s: Style)
    ensures Parse(name) == Some(s) <==> Name(s) == name
  {
    if Name(s) == name {
      match Parse(name)
      case Some(t) => NameInjective(s, t);
      case None =>
    }
  }

  /** The lookup misses exactly the names that are no entry's key. */
  lemma ParseUnknown(name: string)
    ensures Parse(name) == None <==> forall s: Style :: Name(s) != name
  {
    if Parse(name) == None {
      forall s: Style ensures Name(s) != name {
        ParseName(name, s);
      }
    }
  }

  // ---------------------------------------------------------------------
  // Profiles

  /** One row of `style_configs`. */
  datatype Profile = Profile(rules: string, camera: string, lighting: string)

  /** `style_configs` (main.py:320-357), row by row. */
  function ProfileOf(s: Style): Profile {
    match s
    case StrictRealism =>
      Profile("Ultra-realistic, natural lighting, phone camera quality, micro-movements only, NO cinematic effects",
              "Handheld smartphone camera, natural shake, authentic feel",
              "Natural ambient lighting, no studio setup")
    case CinematicMovie =>
      Profile("8K cinematic quality, dramatic lighting, shallow depth of field, professional color grading",
              "RED camera, smooth gimbal movement, film grain",
              "Three-point studio lighting, dynamic shadows, golden hour tones")
    case DisneyPixar =>
      Profile("High-quality 3D animation, Pixar render quality, expressive characters, vibrant colors",
              "Animated camera movement, dynamic angles",
              "Soft, colorful lighting with rim lights, bounced light")
    case CyberpunkNeon =>
      Profile("Neon-lit environment, cyberpunk aesthetic, high contrast, futuristic",
              "Blade Runner inspired, rain effects, lens flares",
              "Neon pink/blue lighting, volumetric fog, dramatic shadows")
    case VintageFilmGrain =>
      Profile("16mm film aesthetic, vintage color grading, film grain, retro vibe",
              "Classic film camera, slight vignette, scratches",
              "Warm vintage lighting, soft shadows, nostalgic tone")
    case OilPaintingArt =>
      Profile("Oil painting style, artistic brush strokes, classical art aesthetic",
              "Static artistic framing, painting-like composition",
              "Rembrandt lighting, chiaroscuro effects")
    case DreamyWatercolor =>
      Profile("Soft watercolor aesthetic, flowing colors, dreamy atmosphere",
              "Soft focus, ethereal movement, gentle transitions",
              "Soft diffused lighting, pastel tones, dreamy glow")
  }

  /** The row used for names missing from the table. */
  const DefaultStyle := StrictRealism

  /** The row `style_configs.get(name, style_configs["Strict Realism
      (Default)"])` picks: the entry named `name`, or the default one. */
  function Lookup(name: string): Style {
    match Parse(name)
    case Some(s) => s
    case None => DefaultStyle
  }

  /** The profile the prompt uses for the extracted style name `name`. */
  function Resolve(name: string): Profile {
    ProfileOf(Lookup(name))
  }

  /** A key selects its own row. */
  lemma LookupKnown(s: Style)
    ensures Lookup(Name(s)) == s
  {
    ParseName(Name(s), s);
  }

  /** Any other name gets the default row. */
  lemma LookupUnknown(name: string)
    requires forall s: Style :: Name(s) != name
    ensures Lookup(name) == StrictRealism
  {
    ParseUnknown(name);
  }

  /** Every menu label resolves to its own row. */
  lemma LabelResolves(s: Style)
    ensures StyleName(Label(s)) == Name(s)
    ensures Lookup(StyleName(Label(s))) == s
  {
    StyleNameAfterPrefix([Emoji(s)], Name(s));
    LookupKnown(s);
  }

  // A key with a space in it, cut the way `generate_video_prompt` cuts a
  // label: the first word goes, and the rest is no key.

  lemma StrictRealismTail()
    ensures StyleName(Name(StrictRealism)) == "Realism (Default)"
  {
    assert Name(StrictRealism) == "Strict" + [' '] + "Realism (Default)";
    StyleNameAfterPrefix("Strict", "Realism (Default)");
  }

  lemma StrictRealismTailNoKey()
    ensures Parse("Realism (Default)") == None
  {
  }

  lemma CinematicMovieTail()
    ensures StyleName(Name(CinematicMovie)) == "Movie"
  {
    assert Name(CinematicMovie) == "Cinematic" + [' '] + "Movie";
    StyleNameAfterPrefix("Cinematic", "Movie");
  }

  lemma CinematicMovieTailNoKey()
    ensures Parse("Movie") == None
  {
  }

  lemma DisneyPixarTail()
    ensures StyleName(Name(DisneyPixar)) == "3D"
  {
    assert Name(DisneyPixar) == "Disney/Pixar" + [' '] + "3D";
    StyleNameAfterPrefix("Disney/Pixar", "3D");
  }

  lemma DisneyPixarTailNoKey()
    ensures Parse("3D") == None
  {
  }

  lemma VintageFilmGrainTail()
    ensures StyleName(Name(VintageFilmGrain)) == "Film Grain"
  {
    assert Name(VintageFilmGrain) == "Vintage" + [' '] + "Film Grain";
    StyleNameAfterPrefix("Vintage", "Film Grain");
  }

  lemma VintageFilmGrainTailNoKey()
    ensures Parse("Film Grain") == None
  {
  }

  lemma OilPaintingArtTail()
    ensures StyleName(Name(OilPaintingArt)) == "Painting Art"
  {
    assert Name(OilPaintingArt) == "Oil" + [' '] + "Painting Art";
    StyleNameAfterPrefix("Oil", "Painting Art");
  }

  lemma OilPaintingArtTailNoKey()
    ensures Parse("Painting Art") == None
  {
  }

  lemma DreamyWatercolorTail()
    ensures StyleName(Name(DreamyWatercolor)) == "Watercolor"
  {
    assert Name(DreamyWatercolor) == "Dreamy" + [' '] + "Watercolor";
    StyleNameAfterPrefix("Dreamy", "Watercolor");
  }

  lemma DreamyWatercolorTailNoKey()
    ensures Parse("Watercolor") == None
  {
  }

  /** Only the part after the first space is looked up, so a key with a
      space in it, given bare instead of as its menu label, loses its first
      word and misses the table: every such key gets the default row. */
  lemma BareNameFallsBack(s: Style)
    requires ' ' in Name(s)
    ensures StyleName(Name(s)) != Name(s)
    ensures Lookup(StyleName(Name(s))) == DefaultStyle
  {
    match s
    case StrictRealism => StrictRealismTail(); StrictRealismTailNoKey();
    case CinematicMovie => CinematicMovieTail(); CinematicMovieTailNoKey();
    case DisneyPixar => DisneyPixarTail(); DisneyPixarTailNoKey();
    case CyberpunkNeon => assert false;
    case VintageFilmGrain => VintageFilmGrainTail(); VintageFilmGrainTailNoKey();
    case OilPaintingArt => OilPaintingArtTail(); OilPaintingArtTailNoKey();
    case DreamyWatercolor => DreamyWatercolorTail(); DreamyWatercolorTailNoKey();
  }

  // ---------------------------------------------------------------------
  // The video prompt template (main.py:361-389)

  const Intro := "Create a professional video generation prompt for AI video tools like Kling AI, Runway, or Pika.\n\n"
  const ClipOpen := "**CLIP #"
  const ClipClose := "**"
  const DescriptionHeading := "\n\nCHARACTER DESCRIPTION:\n"
  const DialogueHeading := "\n\nDIALOGUE TO SPEAK:\n"
  const Quote := "\""
  const StyleHeading := "\n\nVISUAL STYLE:\n"
  const RulesHeading := "\n\nTECHNICAL REQUIREMENTS:\n- Style Rules: "
  const CameraHeading := "\n- Camera Setup: "
  const LightingHeading := "\n- Lighting: "
  const Outro :=
    "\n\nOUTPUT FORMAT:\nGenerate a single, detailed video prompt that includes:\n"
    + "1. Character description and positioning\n"
    + "2. The exact dialogue to be spoken\n"
    + "3. Facial expressions matching the emotional tone\n"
    + "4. Lip synchronization instructions\n"
    + "5. Camera movement and framing\n"
    + "6. Lighting and atmosphere details\n"
    + "7. Style-specific visual elements\n\n"
    + "Make it production-ready for professional AI video generation tools."

  /** The fixed text between the fields of the template. */
  datatype Frame = Frame(
    intro: string, clipOpen: string, clipClose: string,
    description: string, dialogue: string, quote: string, style: string,
    rules: string, camera: string, lighting: string, outro: string)

  const PromptFrame := Frame(
    Intro, ClipOpen, ClipClose,
    DescriptionHeading, DialogueHeading, Quote, StyleHeading,
    RulesHeading, CameraHeading, LightingHeading, Outro)

  /** The prompt template with its fields filled in: the clip number, the
      character description, the dialogue, the style name and the three
      lines of the profile, in this order. */
  function Template(f: Frame, clip: nat, desc: string, dialogue: string, name: string, p: Profile): string {
    f.intro + (f.clipOpen + (NatToString(clip) + (f.clipClose + (f.description + (desc + (f.dialogue + (f.quote + (dialogue + (f.quote + (f.style + (name + (f.rules + (p.rules + (f.camera + (p.camera + (f.lighting + (p.lighting + f.outro)))))))))))))))))
  }

  /** The prompt `generate_video_prompt` sends for clip number `clip`. */
  function VideoPrompt(desc: string, dialogue: string, style: string, clip: nat): string {
    var name := StyleName(style);
    Template(PromptFrame, clip, desc, dialogue, name, Resolve(name))
  }

  /** An occurrence survives putting four pieces in front. */
  lemma Skip4(a: string, b: string, c: string, d: string, rest: string, sub: string)
    requires Contains(rest, sub)
    ensures Contains(a + (b + (c + (d + rest))), sub)
  {
    ContainsPrefix(d, rest, sub);
    ContainsPrefix(c, d + rest, sub);
    ContainsPrefix(b, c + (d + rest), sub);
    ContainsPrefix(a, b + (c + (d + rest)), sub);
  }

  lemma Regroup3(a: string, b: string, c: string, rest: string)
    ensures a + (b + (c + rest)) == (a + b + c) + rest
  {
  }

  /** The clip number appears in decimal inside the bold clip heading. */
  lemma TemplateNumbersClip(f: Frame, clip: nat, desc: string, dialogue: string, name: string, p: Profile)
    ensures Contains(Template(f, clip, desc, dialogue, name, p), f.clipOpen + NatToString(clip) + f.clipClose)
  {
    var t4 := f.description + (desc + (f.dialogue + (f.quote + (dialogue + (f.quote + (f.style + (name + (f.rules + (p.rules + (f.camera + (p.camera + (f.lighting + (p.lighting + f.outro)))))))))))));
    Regroup3(f.clipOpen, NatToString(clip), f.clipClose, t4);
    ContainsHead(f.clipOpen + NatToString(clip) + f.clipClose, t4);
    var t1 := f.clipOpen + (NatToString(clip) + (f.clipClose + t4));
    ContainsPrefix(f.intro, t1, f.clipOpen + NatToString(clip) + f.clipClose);
  }

  /** The character description follows its heading verbatim. */
  lemma TemplateShowsDescription(f: Frame, clip: nat, desc: string, dialogue: string, name: string, p: Profile)
    ensures Contains(Template(f, clip, desc, dialogue, name, p), f.description + desc)
  {
    var t6 := f.dialogue + (f.quote + (dialogue + (f.quote + (f.style + (name + (f.rules + (p.rules + (f.camera + (p.camera + (f.lighting + (p.lighting + f.outro)))))))))));
    assert f.description + (desc + t6) == (f.description + desc) + t6;
    ContainsHead(f.description + desc, t6);
    var t4 := f.description + (desc + t6);
    Skip4(f.intro, f.clipOpen, NatToString(clip), f.clipClose, t4, f.description + desc);
  }

  /** The dialogue appears verbatim between double quotes. */
  lemma TemplateQuotesDialogue(f: Frame, clip: nat, desc: string, dialogue: string, name: string, p: Profile)
    ensures Contains(Template(f, clip, desc, dialogue, name, p), f.quote + dialogue + f.quote)
  {
    var t10 := f.style + (name + (f.rules + (p.rules + (f.camera + (p.camera + (f.lighting + (p.lighting + f.outro)))))));
    Regroup3(f.quote, dialogue, f.quote, t10);
    ContainsHead(f.quote + dialogue + f.quote, t10);
    var t7 := f.quote + (dialogue + (f.quote + t10));
    Skip4(f.clipClose, f.description, desc, f.dialogue, t7, f.quote + dialogue + f.quote);
    var t3 := f.clipClose + (f.description + (desc + (f.dialogue + t7)));
    ContainsPrefix(NatToString(clip), t3, f.quote + dialogue + f.quote);
    var t2 := NatToString(clip) + t3;
    ContainsPrefix(f.clipOpen, t2, f.quote + dialogue + f.quote);
    var t1 := f.clipOpen + t2;
    ContainsPrefix(f.intro, t1, f.quote + dialogue + f.quote);
  }

  /** The style name follows its heading verbatim. */
  lemma TemplateShowsStyle(f: Frame, clip: nat, desc: string, dialogue: string, name: string, p: Profile)
    ensures Contains(Template(f, clip, desc, dialogue, name, p), f.style + name)
  {
    var t12 := f.rules + (p.rules + (f.camera + (p.camera + (f.lighting + (p.lighting + f.outro)))));
    assert f.style + (name + t12) == (f.style + name) + t12;
    ContainsHead(f.style + name, t12);
    var t10 := f.style + (name + t12);
    Skip4(f.dialogue, f.quote, dialogue, f.quote, t10, f.style + name);
    var t6 := f.dialogue + (f.quote + (dialogue + (f.quote + t10)));
    Skip4(NatToString(clip), f.clipClose, f.description, desc, t6, f.style + name);
    var t2 := NatToString(clip) + (f.clipClose + (f.description + (desc + t6)));
    ContainsPrefix(f.clipOpen, t2, f.style + name);
    var t1 := f.clipOpen + t2;
    ContainsPrefix(f.intro, t1, f.style + name);
  }

  /** The profile's rules follow their heading verbatim. */
  lemma TemplateShowsRules(f: Frame, clip: nat, desc: string, dialogue: string, name: string, p: Profile)
    ensures Contains(Template(f, clip, desc, dialogue, name, p), f.rules + p.rules)
  {
    var t14 := f.camera + (p.camera + (f.lighting + (p.lighting + f.outro)));
    assert f.rules + (p.rules + t14) == (f.rules + p.rules) + t14;
    ContainsHead(f.rules + p.rules, t14);
    var t12 := f.rules + (p.rules + t14);
    Skip4(dialogue, f.quote, f.style, name, t12, f.rules + p.rules);
    var t8 := dialogue + (f.quote + (f.style + (name + t12)));
    Skip4(f.description, desc, f.dialogue, f.quote, t8, f.rules + p.rules);
    var t4 := f.description + (desc + (f.dialogue + (f.quote + t8)));
    Skip4(f.intro, f.clipOpen, NatToString(clip), f.clipClose, t4, f.rules + p.rules);
  }

  /** The profile's camera line follows its heading verbatim. */
  lemma TemplateShowsCamera(f: Frame, clip: nat, desc: string, dialogue: string, name: string, p: Profile)
    ensures Contains(Template(f, clip, desc, dialogue, name, p), f.camera + p.camera)
  {
    var t16 := f.lighting + (p.lighting + f.outro);
    assert f.camera + (p.camera + t16) == (f.camera + p.camera) + t16;
    ContainsHead(f.camera + p.camera, t16);
    var t14 := f.camera + (p.camera + t16);
    Skip4(f.style, name, f.rules, p.rules, t14, f.camera + p.camera);
    var t10 := f.style + (name + (f.rules + (p.rules + t14)));
    Skip4(f.dialogue, f.quote, dialogue, f.quote, t10, f.camera + p.camera);
    var t6 := f.dialogue + (f.quote + (dialogue + (f.quote + t10)));
    Skip4(NatToString(clip), f.clipClose, f.description, desc, t6, f.camera + p.camera);
    var t2 := NatToString(clip) + (f.clipClose + (f.description + (desc + t6)));
    ContainsPrefix(f.clipOpen, t2, f.camera + p.camera);
    var t1 := f.clipOpen + t2;
    ContainsPrefix(f.intro, t1, f.camera + p.camera);
  }

  /** The profile's lighting line follows its heading verbatim. */
  lemma TemplateShowsLighting(f: Frame, clip: nat, desc: string, dialogue: string, name: string, p: Profile)
    ensures Contains(Template(f, clip, desc, dialogue, name, p), f.lighting + p.lighting)
  {
    var t18 := f.outro;
    assert f.lighting + (p.lighting + t18) == (f.lighting + p.lighting) + t18;
    ContainsHead(f.lighting + p.lighting, t18);
    var t16 := f.lighting + (p.lighting + t18);
    Skip4(f.rules, p.rules, f.camera, p.camera, t16, f.lighting + p.lighting);
    var t12 := f.rules + (p.rules + (f.camera + (p.camera + t16)));
    Skip4(dialogue, f.quote, f.style, name, t12, f.lighting + p.lighting);
    var t8 := dialogue + (f.quote + (f.style + (name + t12)));
    Skip4(f.description, desc, f.dialogue, f.quote, t8, f.lighting + p.lighting);
    var t4 := f.description + (desc + (f.dialogue + (f.quote + t8)));
    Skip4(f.intro, f.clipOpen, NatToString(clip), f.clipClose, t4, f.lighting + p.lighting);
  }

  /** The prompt numbers the clip, quotes the dialogue verbatim and shows
      the description, the extracted style name and the resolved profile,
      each under its heading. */
  lemma PromptShowsFields(desc: string, dialogue: string, style: string, clip: nat)
    ensures var t, p := VideoPrompt(desc, dialogue, style, clip), Resolve(StyleName(style));
      && Contains(t, ClipOpen + NatToString(clip) + ClipClose)
      && Contains(t, DescriptionHeading + desc)
      && Contains(t, Quote + dialogue + Quote)
      && Contains(t, StyleHeading + StyleName(style))
      && Contains(t, RulesHeading + p.rules)
      && Contains(t, CameraHeading + p.camera)
      && Contains(t, LightingHeading + p.lighting)
  {
    var name, p := StyleName(style), Resolve(StyleName(style));
    TemplateNumbersClip(PromptFrame, clip, desc, dialogue, name, p);
    TemplateShowsDescription(PromptFrame, clip, desc, dialogue, name, p);
    TemplateQuotesDialogue(PromptFrame, clip, desc, dialogue, name, p);
    TemplateShowsStyle(PromptFrame, clip, desc, dialogue, name, p);
    TemplateShowsRules(PromptFrame, clip, desc, dialogue, name, p);
    TemplateShowsCamera(PromptFrame, clip, desc, dialogue, name, p);
    TemplateShowsLighting(PromptFrame, clip, desc, dialogue, name, p);
  }

  /** A menu label puts its own name and its own profile into the prompt. */
  lemma LabelledPrompt(desc: string, dialogue: string, s: Style, clip: nat)
    ensures Contains(VideoPrompt(desc, dialogue, Label(s), clip), StyleHeading + Name(s))
    ensures Contains(VideoPrompt(desc, dialogue, Label(s), clip), RulesHeading + ProfileOf(s).rules)
  {
    LabelResolves(s);
    TemplateShowsStyle(PromptFrame, clip, desc, dialogue, Name(s), ProfileOf(s));
    TemplateShowsRules(PromptFrame, clip, desc, dialogue, Name(s), ProfileOf(s));
  }

  /** An unknown name is still shown as given ... */
  lemma UnknownStyleShown(desc: string, dialogue: string, name: string, clip: nat)
    requires ' ' !in name && Parse(name) == None
    ensures Contains(VideoPrompt(desc, dialogue, name, clip), StyleHeading + name)
  {
    PromptShowsFields(desc, dialogue, name, clip);
  }

  /** ... and whenever the extracted name is no key, the rules come from
      the default row. */
  lemma UnknownStyleDefaults(desc: string, dialogue: string, style: string, clip: nat)
    requires Parse(StyleName(style)) == None
    ensures Contains(VideoPrompt(desc, dialogue, style, clip), RulesHeading + ProfileOf(DefaultStyle).rules)
  {
    var name := StyleName(style);
    assert Lookup(name) == DefaultStyle;
    TemplateShowsRules(PromptFrame, clip, desc, dialogue, name, Resolve(name));
  }
}

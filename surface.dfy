/**
 * The card surface (components/ui/surface.tsx): the tone-to-palette
 * lookup, the hex colour decoder that turns a palette colour into an
 * `rgba(r, g, b, alpha)` string, and the choice of background and of the
 * other style values from the props and the colour scheme.
 */
module Surface {
  import opened Optional
  import opened Hex
  import opened Decimal
  import opened JsStrings
  import Design

  // ---------------------------------------------------------------------
  // Colours as text
  // ---------------------------------------------------------------------

  /** The three channels a hex colour is decoded into. */
  datatype Rgb = Rgb(r: Byte, g: Byte, b: Byte)

  /** `#RRGGBB`: a hash followed by six hex digits, the form of every palette colour. */
  predicate IsHexColour(s: string) {
    |s| == 7 && s[0] == '#' && AllHexDigits(s[1..])
  }

  /** The canonical `#rrggbb` text of a colour, in lower case. */
  function HexColour(c: Rgb): (s: string)
    ensures IsHexColour(s) && AllLowerHexDigits(s[1..])
  {
    "#" + ByteHex(c.r) + ByteHex(c.g) + ByteHex(c.b)
  }

  /** The text `addAlpha` starts from: the input with its first '#' taken out. */
  function Normalized(hex: string): (n: string)
    ensures |n| == if '#' in hex then |hex| - 1 else |hex|
    ensures |hex| > 0 && hex[0] == '#' ==> n == hex[1..]
    ensures '#' !in hex ==> n == hex
  {
    RemoveFirst(hex, '#')
  }

  /**
   * The inputs on which `parseInt(…, 16)` reads each of the three slices
   * 0-2, 2-4 and 4-6 as exactly two hex digits: after the first '#' is
   * removed, at least six characters remain and the first six are hex digits.
   */
  predicate ChannelsReadable(hex: string) {
    var n := Normalized(hex);
    |n| >= 6 && AllHexDigits(n[..6])
  }

  /** A `#RRGGBB` colour is readable; so is `#RRGGBBAA` and anything longer whose first six digits are hex. */
  lemma HexColourReadable(hex: string)
    requires IsHexColour(hex)
    ensures ChannelsReadable(hex)
    ensures Normalized(hex) == hex[1..]
  {
  }

  /**
   * Lines 65-68 of `addAlpha`: strip the first '#', read the slices 0-2,
   * 2-4 and 4-6 in base 16. Writing the channels back as hex gives the six
   * digits that were read, in lower case.
   */
  function Channels(hex: string): (c: Rgb)
    requires ChannelsReadable(hex)
    ensures HexColour(c) == "#" + Lower(Normalized(hex)[..6])
  {
    var n := Normalized(hex);
    var rs, gs, bs := Substring(n, 0, 2), Substring(n, 2, 4), Substring(n, 4, 6);
    assert n[..6] == rs + gs + bs && rs == n[..6][0..2] && gs == n[..6][2..4] && bs == n[..6][4..6];
    HexColourOfPairs(rs, gs, bs);
    Rgb(PairValue(rs), PairValue(gs), PairValue(bs))
  }

  /** Three digit pairs, read and written back, are the same pairs in lower case. */
  lemma HexColourOfPairs(rs: string, gs: string, bs: string)
    requires |rs| == 2 && AllHexDigits(rs)
    requires |gs| == 2 && AllHexDigits(gs)
    requires |bs| == 2 && AllHexDigits(bs)
    ensures AllHexDigits(rs + gs + bs)
    ensures HexColour(Rgb(PairValue(rs), PairValue(gs), PairValue(bs))) == "#" + Lower(rs + gs + bs)
  {
    ByteHexOfPairValue(rs);
    ByteHexOfPairValue(gs);
    ByteHexOfPairValue(bs);
    LowerAppend(rs, gs);
    LowerAppend(rs + gs, bs);
  }

  /** Decoding the hex text of a colour gives the colour back. */
  lemma ChannelsOfHexColour(c: Rgb)
    ensures ChannelsReadable(HexColour(c))
    ensures Channels(HexColour(c)) == c
  {
    var s := HexColour(c);
    HexColourReadable(s);
    assert s[1..] == ByteHex(c.r) + ByteHex(c.g) + ByteHex(c.b);
  }

  /** Encoding what was decoded gives the input back, when the input is a lower-case `#rrggbb`. */
  lemma HexColourOfChannels(hex: string)
    requires IsHexColour(hex) && AllLowerHexDigits(hex[1..])
    ensures ChannelsReadable(hex)
    ensures HexColour(Channels(hex)) == hex
  {
    HexColourReadable(hex);
    var n := hex[1..];
    assert n[..6] == n;
    assert Lower(n) == n;
    assert hex == "#" + n;
  }

  /** Two colours decode alike exactly when their six digits agree up to case. */
  lemma ChannelsEqualIff(h1: string, h2: string)
    requires ChannelsReadable(h1) && ChannelsReadable(h2)
    ensures Channels(h1) == Channels(h2) <==> Lower(Normalized(h1)[..6]) == Lower(Normalized(h2)[..6])
  {
    var c1, c2 := Channels(h1), Channels(h2);
    if Lower(Normalized(h1)[..6]) == Lower(Normalized(h2)[..6]) {
      ChannelsOfHexColour(c1);
      ChannelsOfHexColour(c2);
      assert HexColour(c1) == HexColour(c2);
    }
  }

  /** Whatever follows the six digits (an alpha pair, say) does not change the decoded channels. */
  lemma ChannelsIgnoreSuffix(hex: string, suffix: string)
    requires IsHexColour(hex)
    ensures ChannelsReadable(hex) && ChannelsReadable(hex + suffix)
    ensures Channels(hex + suffix) == Channels(hex)
  {
    HexColourReadable(hex);
    assert (hex + suffix)[0] == '#';
    assert Normalized(hex + suffix) == (hex + suffix)[1..];
    assert Normalized(hex + suffix)[..6] == Normalized(hex)[..6];
    ChannelsEqualIff(hex + suffix, hex);
  }

  /** The string `rgba(r, g, b, alpha)` with the channels in decimal. */
  function RgbaText(c: Rgb, alpha: string): (t: string)
    ensures |t| == 12 + |Show(c.r)| + |Show(c.g)| + |Show(c.b)| + |alpha|
    ensures t[..5] == "rgba(" && t[|t| - 1] == ')'
  {
    "rgba(" + Show(c.r) + ", " + Show(c.g) + ", " + Show(c.b) + ", " + alpha + ")"
  }

  /**
   * `addAlpha(hex, alpha)`. The alpha number reaches the model as the text
   * JavaScript prints for it. The result is an `rgba(...)` string from
   * which the decoded channels and that alpha text can be read back.
   */
  function AddAlpha(hex: string, alpha: string): (s: string)
    requires ChannelsReadable(hex)
    ensures s == RgbaText(Channels(hex), alpha)
    ensures ParseRgba(s) == Some((Channels(hex), alpha))
  {
    var c := Channels(hex);
    RgbaParsesBack(c, alpha);
    RgbaText(c, alpha)
  }

  // ---------------------------------------------------------------------
  // Reading an rgba string back
  // ---------------------------------------------------------------------

  /** A decimal channel value followed by ", "; returns the value and what follows. */
  function ReadChannel(s: string): Option<(Byte, string)> {
    var (digits, rest) := SpanDigits(s);
    if digits != [] && Value(digits) < 256 && |rest| >= 2 && rest[..2] == ", " then
      Some((Value(digits) as Byte, rest[2..]))
    else
      None
  }

  /** Reads `rgba(r, g, b, alpha)`: three decimal channels and the alpha text. */
  function ParseRgba(s: string): Option<(Rgb, string)> {
    if |s| < 6 || s[..5] != "rgba(" || s[|s| - 1] != ')' then None
    else
      match ReadChannel(s[5..|s| - 1])
      case None => None
      case Some((r, s1)) =>
        match ReadChannel(s1)
        case None => None
        case Some((g, s2)) =>
          match ReadChannel(s2)
          case None => None
          case Some((b, alpha)) => Some((Rgb(r, g, b), alpha))
  }

  lemma ReadChannelOfShow(b: Byte, t: string)
    ensures ReadChannel(Show(b) + ", " + t) == Some((b, t))
  {
    assert Show(b) + ", " + t == Show(b) + (", " + t);
    SpanDigitsOf(Show(b), ", " + t);
    ValueOfShow(b);
    assert (", " + t)[..2] == ", " && (", " + t)[2..] == t;
  }

  /** The rgba text of a colour reads back as that colour and alpha, whatever the alpha text. */
  lemma RgbaParsesBack(c: Rgb, alpha: string)
    ensures ParseRgba(RgbaText(c, alpha)) == Some((c, alpha))
  {
    var s := RgbaText(c, alpha);
    var s2 := Show(c.b) + ", " + alpha;
    var s1 := Show(c.g) + ", " + s2;
    var s0 := Show(c.r) + ", " + s1;
    assert s == "rgba(" + s0 + ")";
    assert s[..5] == "rgba(" && s[5..|s| - 1] == s0;
    ReadChannelOfShow(c.r, s1);
    ReadChannelOfShow(c.g, s2);
    ReadChannelOfShow(c.b, alpha);
  }

  /** Two calls give the same string exactly when they decode to the same channels and get the same alpha text. */
  lemma AddAlphaInjective(h1: string, a1: string, h2: string, a2: string)
    requires ChannelsReadable(h1) && ChannelsReadable(h2)
    ensures AddAlpha(h1, a1) == AddAlpha(h2, a2) <==> Channels(h1) == Channels(h2) && a1 == a2
  {
  }

  // ---------------------------------------------------------------------
  // Tones
  // ---------------------------------------------------------------------

  datatype Tone = Primary | Peach | Sage | Foam | Neutral

  /** `getToneColor`: the four named tones pick their palette colour; `neutral`, the default branch, picks ink. */
  function ToneColour(tone: Tone): (c: string)
    ensures IsHexColour(c)
    ensures c == Design.Ink <==> tone == Neutral
  {
    match tone
    case Primary => Design.Primary
    case Peach => Design.Peach
    case Sage => Design.Sage
    case Foam => Design.Foam
    case Neutral => Design.Ink
  }

  /** A readable colour whose six digits are, up to case, the hex text of `c` decodes to `c`. */
  lemma ChannelsFromText(hex: string, c: Rgb)
    requires ChannelsReadable(hex)
    requires "#" + Lower(Normalized(hex)[..6]) == HexColour(c)
    ensures Channels(hex) == c
  {
    var d := Channels(hex);
    ChannelsOfHexColour(c);
    ChannelsOfHexColour(d);
  }

  /** The channels of a tone's colour, read off the palette by hand. */
  function ToneRgb(tone: Tone): Rgb {
    match tone
    case Primary => Rgb(121, 188, 210)
    case Peach => Rgb(250, 217, 198)
    case Sage => Rgb(146, 177, 157)
    case Foam => Rgb(215, 236, 244)
    case Neutral => Rgb(16, 22, 24)
  }

  /** A `#RRGGBB` colour decodes to the values of its three digit pairs. */
  lemma ChannelsOfPairs(hex: string)
    requires IsHexColour(hex)
    ensures ChannelsReadable(hex)
    ensures Channels(hex) == Rgb(PairValue(hex[1..3]), PairValue(hex[3..5]), PairValue(hex[5..7]))
  {
    HexColourReadable(hex);
    var n := Normalized(hex);
    assert Substring(n, 0, 2) == hex[1..3];
    assert Substring(n, 2, 4) == hex[3..5];
    assert Substring(n, 4, 6) == hex[5..7];
  }

  /** A colour written as `#` and three given digit pairs decodes to their values. */
  lemma ChannelsOfDigits(hex: string, rs: string, gs: string, bs: string)
    requires |rs| == 2 && AllHexDigits(rs)
    requires |gs| == 2 && AllHexDigits(gs)
    requires |bs| == 2 && AllHexDigits(bs)
    requires hex == "#" + rs + gs + bs
    ensures ChannelsReadable(hex)
    ensures Channels(hex) == Rgb(PairValue(rs), PairValue(gs), PairValue(bs))
  {
    assert hex[1..3] == rs && hex[3..5] == gs && hex[5..7] == bs;
    assert IsHexColour(hex);
    ChannelsOfPairs(hex);
  }

  /** The palette colours of the tones, decoded one by one. */
  lemma PrimaryChannels()
    ensures ChannelsReadable(Design.Primary) && Channels(Design.Primary) == Rgb(121, 188, 210)
  {
    ChannelsOfDigits(Design.Primary, "79", "bc", "d2");
  }

  lemma PeachChannels()
    ensures ChannelsReadable(Design.Peach) && Channels(Design.Peach) == Rgb(250, 217, 198)
  {
    ChannelsOfDigits(Design.Peach, "FA", "D9", "C6");
  }

  lemma SageChannels()
    ensures ChannelsReadable(Design.Sage) && Channels(Design.Sage) == Rgb(146, 177, 157)
  {
    ChannelsOfDigits(Design.Sage, "92", "B1", "9D");
  }

  lemma FoamChannels()
    ensures ChannelsReadable(Design.Foam) && Channels(Design.Foam) == Rgb(215, 236, 244)
  {
    ChannelsOfDigits(Design.Foam, "d7", "ec", "f4");
  }

  lemma InkChannels()
    ensures ChannelsReadable(Design.Ink) && Channels(Design.Ink) == Rgb(16, 22, 24)
  {
    ChannelsOfDigits(Design.Ink, "10", "16", "18");
  }

  /** Decoding each tone's palette colour gives the channels written in the palette. */
  lemma ToneChannels(tone: Tone)
    ensures ChannelsReadable(ToneColour(tone))
    ensures Channels(ToneColour(tone)) == ToneRgb(tone)
  {
    match tone
    case Primary => PrimaryChannels();
    case Peach => PeachChannels();
    case Sage => SageChannels();
    case Foam => FoamChannels();
    case Neutral => InkChannels();
  }

  /** Distinct tones get distinct colours, and distinct decoded channels. */
  lemma ToneColourInjective(t1: Tone, t2: Tone)
    requires t1 != t2
    ensures ToneColour(t1) != ToneColour(t2)
    ensures Channels(ToneColour(t1)) != Channels(ToneColour(t2))
  {
    assert ToneRgb(t1) != ToneRgb(t2);
    ToneChannels(t1);
    ToneChannels(t2);
  }

  // ---------------------------------------------------------------------
  // Background and props
  // ---------------------------------------------------------------------

  datatype Variant = Raised | Tonal | Flat

  datatype Scheme = Light | Dark

  /**
   * What a surface is painted with: an rgba tint, or the `surface` entry
   * of the scheme's theme colours, kept symbolic.
   */
  datatype Paint = Tint(css: string) | SchemeSurface(scheme: Scheme)

  const DarkTonalAlpha: string := "0.18"
  const LightTonalAlpha: string := "0.3"

  /** `useColorScheme() ?? 'light'`. */
  function EffectiveScheme(hook: Option<Scheme>): (s: Scheme)
    ensures hook == None ==> s == Light
    ensures hook != None ==> s == hook.value
  {
    hook.GetOr(Light)
  }

  /**
   * The `background` expression: a tonal surface is the tone's colour with
   * alpha 0.18 on a dark scheme and 0.3 otherwise; raised and flat surfaces
   * ignore the tone and use the scheme's surface colour.
   */
  function Background(variant: Variant, scheme: Scheme, tone: Tone): (p: Paint)
    ensures variant == Tonal ==>
      p.Tint? && ParseRgba(p.css) == Some((Channels(ToneColour(tone)), if scheme == Dark then "0.18" else "0.3"))
    ensures variant == Tonal ==>
      p.css == RgbaText(Channels(ToneColour(tone)), if scheme == Dark then "0.18" else "0.3")
    ensures variant != Tonal ==> p == SchemeSurface(scheme)
  {
    if variant == Tonal then
      var hex := ToneColour(tone);
      HexColourReadable(hex);
      Tint(AddAlpha(hex, if scheme == Dark then DarkTonalAlpha else LightTonalAlpha))
    else
      SchemeSurface(scheme)
  }

  /** Outside the tonal variant the tone makes no difference to the background. */
  lemma BackgroundIgnoresTone(variant: Variant, scheme: Scheme, t1: Tone, t2: Tone)
    requires variant != Tonal
    ensures Background(variant, scheme, t1) == Background(variant, scheme, t2)
  {
  }

  /** A tonal background tells the tones apart. */
  lemma TonalBackgroundInjective(scheme: Scheme, t1: Tone, t2: Tone)
    requires t1 != t2
    ensures Background(Tonal, scheme, t1) != Background(Tonal, scheme, t2)
  {
    ToneColourInjective(t1, t2);
  }

  /** The props of `Surface` that decide its style; each may be left undefined. */
  datatype SurfaceProps = SurfaceProps(variant: Option<Variant>, tone: Option<Tone>, padding: Option<real>)

  /** The style values `Surface` computes; the border colour is the scheme's `border` entry, kept symbolic. */
  datatype SurfaceStyle = SurfaceStyle(
    background: Paint,
    padding: real,
    borderScheme: Scheme,
    borderWidth: nat,
    cardShadow: bool)

  /**
   * The style `Surface` gives its view. Defaults: variant raised, tone
   * neutral, padding 16, scheme light. The base border width 1 is
   * overridden to 0 by the flat variant; only the raised variant carries
   * the card shadow.
   */
  function SurfaceStyleOf(props: SurfaceProps, hook: Option<Scheme>): (st: SurfaceStyle)
    ensures st.background == Background(props.variant.GetOr(Raised), EffectiveScheme(hook), props.tone.GetOr(Neutral))
    ensures props.padding == None ==> st.padding == 16.0
    ensures props.padding != None ==> st.padding == props.padding.value
    ensures st.borderScheme == EffectiveScheme(hook)
    ensures st.borderWidth == 0 <==> props.variant == Some(Flat)
    ensures st.borderWidth <= 1
    ensures st.cardShadow <==> props.variant.GetOr(Raised) == Raised
  {
    var variant := props.variant.GetOr(Raised);
    var scheme := EffectiveScheme(hook);
    SurfaceStyle(
      Background(variant, scheme, props.tone.GetOr(Neutral)),
      props.padding.GetOr(16.0),
      scheme,
      if variant == Flat then 0 else 1,
      variant == Raised)
  }

  /** A surface with no props and no scheme is a raised light card with padding 16. */
  lemma DefaultSurface()
    ensures SurfaceStyleOf(SurfaceProps(None, None, None), None)
         == SurfaceStyle(SchemeSurface(Light), 16.0, Light, 1, true)
  {
  }

  /** A tonal surface with the default tone is tinted with ink. */
  lemma DefaultToneIsInk(scheme: Scheme)
    ensures Background(Tonal, scheme, Neutral).Tint?
    ensures ParseRgba(Background(Tonal, scheme, Neutral).css).Some?
    ensures ParseRgba(Background(Tonal, scheme, Neutral).css).value.0 == Rgb(16, 22, 24)
  {
    ToneChannels(Neutral);
  }

  // ---------------------------------------------------------------------
  // The palette against the decoder
  // ---------------------------------------------------------------------

  /** Every palette colour is a `#RRGGBB` colour, so every one of them can be passed to `addAlpha`. */
  lemma PaletteReadable()
    ensures forall p :: p in Design.PaletteColours ==> IsHexColour(p) && ChannelsReadable(p)
  {
    forall p | p in Design.PaletteColours
      ensures IsHexColour(p) && ChannelsReadable(p)
    {
      HexColourReadable(p);
    }
  }

  /** The rgba text of a colour, given the decimal text of its channels. */
  lemma RgbaTextOf(c: Rgb, alpha: string, r: string, g: string, b: string)
    requires Show(c.r) == r && Show(c.g) == g && Show(c.b) == b
    ensures RgbaText(c, alpha) == "rgba(" + r + ", " + g + ", " + b + ", " + alpha + ")"
  {
  }

  /** The decimal text of the channel values of the shadow colours. */
  lemma ShowShadowChannels()
    ensures Show(16) == "16" && Show(22) == "22" && Show(24) == "24"
    ensures Show(121) == "121" && Show(188) == "188" && Show(210) == "210"
  {
  }

  /** The rgba text of the card shadow colour's channels. */
  lemma CardShadowText()
    ensures RgbaText(Rgb(16, 22, 24), "0.08") == Design.CardShadowColour
  {
    ShowShadowChannels();
    RgbaTextOf(Rgb(16, 22, 24), "0.08", "16", "22", "24");
  }

  /** The rgba text of the soft shadow colour's channels. */
  lemma SoftShadowText()
    ensures RgbaText(Rgb(121, 188, 210), "0.2") == Design.SoftShadowColour
  {
    ShowShadowChannels();
    RgbaTextOf(Rgb(121, 188, 210), "0.2", "121", "188", "210");
  }

  /** The card shadow colour is what `addAlpha` makes of ink with alpha 0.08. */
  lemma CardShadowFromInk()
    ensures ChannelsReadable(Design.Ink)
    ensures Design.CardShadowColour == AddAlpha(Design.Ink, "0.08")
  {
    ToneChannels(Neutral);
    CardShadowText();
  }

  /** The soft shadow colour is what `addAlpha` makes of primary with alpha 0.2. */
  lemma SoftShadowFromPrimary()
    ensures ChannelsReadable(Design.Primary)
    ensures Design.SoftShadowColour == AddAlpha(Design.Primary, "0.2")
  {
    ToneChannels(Primary);
    SoftShadowText();
  }
}

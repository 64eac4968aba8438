/**
 * The pill badge (components/ui/pill.tsx): each tone's background is a
 * palette colour with a two-digit alpha byte appended (`#RRGGBBAA`),
 * except ink, which has a fixed rgba string.
 */
module Pill {
  import opened Optional
  import opened Hex
  import Design
  import Surface

  datatype PillTone = Primary | Peach | Sage | Ink | Foam

  /** The fixed background of the ink tone: the same text as the design file's card shadow colour. */
  const InkBackground: string := Design.CardShadowColour

  /** The palette colour a non-ink tone starts from; an omitted tone counts as primary. */
  function BaseColour(tone: Option<PillTone>): (c: string)
    requires tone != Some(Ink)
    ensures Surface.IsHexColour(c) && c in Design.PaletteColours
  {
    match tone
    case Some(Peach) => Design.Peach
    case Some(Sage) => Design.Sage
    case Some(Foam) => Design.Foam
    case _ => Design.Primary
  }

  /** The opacity byte of a non-ink tone, out of 255. */
  function AlphaByte(tone: Option<PillTone>): Byte
    requires tone != Some(Ink)
  {
    match tone
    case Some(Peach) => 77
    case Some(Sage) => 51
    case Some(Foam) => 61
    case _ => 43
  }

  /**
   * `getTone`. Ink gives the fixed rgba string; every other tone, and an
   * omitted one, gives the palette colour followed by exactly two hex
   * digits that read as the tone's alpha byte.
   */
  function GetTone(tone: Option<PillTone>): (s: string)
    ensures tone == Some(Ink) ==> s == InkBackground
    ensures tone != Some(Ink) ==>
      |s| == 9 && s[..7] == BaseColour(tone) && AllHexDigits(s[7..]) && PairValue(s[7..]) == AlphaByte(tone)
  {
    match tone
    case Some(Peach) => Design.Peach + "4D"
    case Some(Sage) => Design.Sage + "33"
    case Some(Foam) => Design.Foam + "3d"
    case Some(Ink) => InkBackground
    case _ => Design.Primary + "2b"
  }

  /**
   * `Pill`'s background: the prop defaults to primary before `getTone` sees
   * it. Defaulting changes nothing, since an omitted tone already falls to
   * `getTone`'s primary branch.
   */
  function PillBackground(tone: Option<PillTone>): (s: string)
    ensures s == GetTone(tone)
    ensures tone == None ==> s == Design.Primary + "2b"
  {
    GetTone(Some(tone.GetOr(Primary)))
  }

  /** A tinted background is an 8-digit colour whose first six digits decode to its palette colour. */
  lemma TintDecodesToPalette(tone: Option<PillTone>)
    requires tone != Some(Ink)
    ensures Surface.ChannelsReadable(BaseColour(tone))
    ensures Surface.ChannelsReadable(GetTone(tone))
    ensures Surface.Channels(GetTone(tone)) == Surface.Channels(BaseColour(tone))
  {
    var s := GetTone(tone);
    assert s == BaseColour(tone) + s[7..];
    Surface.ChannelsIgnoreSuffix(BaseColour(tone), s[7..]);
  }

  /** The fixed ink string is exactly what `addAlpha` makes of the ink palette colour with alpha 0.08. */
  lemma InkIsPaletteInk()
    ensures Surface.ChannelsReadable(Design.Ink)
    ensures GetTone(Some(Ink)) == Surface.AddAlpha(Design.Ink, "0.08")
  {
    Surface.CardShadowFromInk();
  }

  /** Different tones give different backgrounds; only primary and an omitted tone coincide. */
  lemma GetToneInjective(t1: Option<PillTone>, t2: Option<PillTone>)
    requires t1.GetOr(Primary) != t2.GetOr(Primary)
    ensures GetTone(t1) != GetTone(t2)
  {
    if t1 != Some(Ink) && t2 != Some(Ink) {
      assert GetTone(t1)[..7] == BaseColour(t1) && GetTone(t2)[..7] == BaseColour(t2);
    } else {
      assert GetTone(Some(Ink))[0] == 'r';
    }
  }
}

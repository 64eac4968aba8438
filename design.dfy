/** The colour constants of the design system (constants/design.ts). */
module Design {

  // Palette
  const Primary: string := "#79bcd2"
  const PrimaryDeep: string := "#2d7c93"
  const BackgroundLight: string := "#f8f7f7"
  const BackgroundDark: string := "#21282c"
  const Ink: string := "#101618"
  const Muted: string := "#5c7e8a"
  const SoftBorder: string := "#e5e8ec"
  const Peach: string := "#FAD9C6"
  const Sage: string := "#92B19D"
  const Lilac: string := "#c7c6f6"
  const Foam: string := "#d7ecf4"

  /** Every colour of the palette, in declaration order. */
  const PaletteColours: seq<string> :=
    [Primary, PrimaryDeep, BackgroundLight, BackgroundDark, Ink, Muted,
     SoftBorder, Peach, Sage, Lilac, Foam]

  // Shadow colours
  const CardShadowColour: string := "rgba(16, 22, 24, 0.08)"
  const SoftShadowColour: string := "rgba(121, 188, 210, 0.2)"
}

# Colour and width helpers of the wellness app's UI kit

The app's screens are built from a few styled components. Three of them
hold the only computation in the UI kit:

- **Surface** (`components/ui/surface.tsx`) is a card. It maps a tone
  (`primary`, `peach`, `sage`, `foam`, `neutral`) to a palette colour with
  `getToneColor`. It decodes that `#RRGGBB` colour into an
  `rgba(r, g, b, alpha)` string with `addAlpha`. Its background is that
  tint for the `tonal` variant, with alpha 0.18 on a dark scheme and 0.3
  otherwise, and the scheme's surface colour for `raised` and `flat`.
  Omitted props default to variant `raised`, tone `neutral` and padding 16,
  and a missing colour scheme counts as `light`.
- **Pill** (`components/ui/pill.tsx`) is a badge. `getTone` appends a
  two-digit alpha byte to a palette colour, giving `#RRGGBBAA`. The `ink`
  tone is the exception: it gets the fixed string `rgba(16, 22, 24, 0.08)`.
- **ProgressBar** (`components/ui/progress-bar.tsx`) clamps its value to
  the range 0..100 before using it as a width percentage.

The model is purely functional, as the source is. Strings are `seq<char>`.

Modules:

- `Design`: the palette and shadow colours.
- `Hex`: hex digits, and a byte written as two of them.
- `Decimal`: the decimal text that `${n}` prints, and how to read it back.
- `JsStrings`: `String.prototype.replace` with a one-character pattern, and `substring`.
- `Surface`, `Pill`, `ProgressBar`: the three components.
- `Optional`: the `Option` type for props that may be `undefined`.

Each operation has a partner that it is proved against:

- The hex decoder `Surface.Channels` has an encoder, `Surface.HexColour`. The round trip is proved in both directions.
- The `rgba(...)` text that `Surface.AddAlpha` prints has a parser, `Surface.ParseRgba`. The channels and the alpha text are proved to read back.
- Decimal printing has a digit reader. Printing and reading are proved to be inverse bijections between numbers and canonical digit strings.
- The removal of the first `#` is proved against an independent first-index function.
- Every palette colour the components use is proved to decode to its written channels. Both shadow colours of the design file are proved to be what `addAlpha` makes of ink and of primary.

## Model

| member | source | states |
|---|---|---|
| `JsStrings.FirstIndex` | components/ui/surface.tsx:65 | the first position holding the character, or the length when there is none; no earlier position holds it |
| `JsStrings.RemoveFirst` | components/ui/surface.tsx:65 | `replace('#', '')` removes only the first `#`, wherever it is; without a `#` the string is unchanged; all other characters are kept in order |
| `JsStrings.Substring` | components/ui/surface.tsx:66-68 | `substring(a, b)` is the slice `s[a..b]` for in-range indices, and is never longer than `s` |
| `JsStrings.ClampIndex` | components/ui/surface.tsx:66-68 | an index argument of `substring` is kept when in 0..length, becomes 0 when negative and the length when past the end |
| `JsStrings.SubstringSymmetric` | components/ui/surface.tsx:66-68 | swapping the two indices of `substring` gives the same slice |
| `Hex.DigitValue` | components/ui/surface.tsx:66-68 | a hex digit's value is below 16, and below 10 exactly for the decimal digits |
| `Hex.HexChar` | components/ui/surface.tsx:66-68 | the digit written for a value below 16 is a lower-case hex digit of that value |
| `Hex.LowerDigit` | components/ui/surface.tsx:66-68 | lower-casing a hex digit keeps its value and leaves lower-case digits alone |
| `Hex.Lower` | components/ui/surface.tsx:66-68 | lower-casing a digit string is digit by digit and keeps its length |
| `Hex.PairValue` | components/ui/surface.tsx:66-68 | `parseInt` of two hex digits in base 16: the first digit is the high one and the second the low one, so the value is a byte; `Hex.ByteHex` is its inverse |
| `Hex.ByteHex` | components/ui/surface.tsx:66-68 | a byte written as two hex digits reads back in base 16 as that byte |
| `Hex.HexCharOfValue` | components/ui/surface.tsx:66-68 | a hex digit is what is written for its value, up to case |
| `Hex.ByteHexOfPairValue` | components/ui/surface.tsx:66-68 | reading two hex digits in base 16 and writing the byte back gives the same digits in lower case |
| `Hex.PairValueInjective` | components/ui/surface.tsx:66-68 | two digit pairs with the same base-16 value agree up to case |
| `Hex.LowerAppend` | components/ui/surface.tsx:66-68 | lower-casing distributes over concatenation |
| `Decimal.DigitOf` | components/ui/surface.tsx:69 | a decimal digit's value is below 10 and is written back as the same character |
| `Decimal.Show` | components/ui/surface.tsx:69 | `${n}` is canonical decimal text: non-empty, all digits, no leading zero, and it starts with `0` only for 0 |
| `Decimal.ValueOfShow` | components/ui/surface.tsx:69 | reading the printed decimal text gives the number back |
| `Decimal.ValuePositive` | components/ui/surface.tsx:69 | a digit string that does not start with `0` denotes a positive number |
| `Decimal.ShowOfValue` | components/ui/surface.tsx:69 | every canonical digit string is the printed text of its value, so printing is a bijection onto canonical strings |
| `Decimal.SpanDigits` | components/ui/surface.tsx:69 | the longest digit prefix and the rest together form the input, and the rest does not start with a digit |
| `Decimal.SpanDigitsOf` | components/ui/surface.tsx:69 | the digit prefix of digits followed by a non-digit is exactly those digits |
| `Surface.Normalized` | components/ui/surface.tsx:65 | `replace('#', '')` shortens the input by one exactly when it holds a `#`; a leading `#` is the one dropped; without a `#` the input is unchanged |
| `Surface.HexColour` | components/ui/surface.tsx:64-68 | the encoder partner of the decoder: a `#` followed by six lower-case hex digits |
| `Surface.HexColourReadable` | components/ui/surface.tsx:65-68 | every `#RRGGBB` colour is accepted by the decoder; stripping its first `#` leaves the six digits |
| `Surface.Channels` | components/ui/surface.tsx:65-68 | r, g and b are the base-16 values of the slices 0-2, 2-4 and 4-6 after the first `#` is removed; writing them back as hex gives those six digits in lower case |
| `Surface.HexColourOfPairs` | components/ui/surface.tsx:66-68 | three digit pairs read in base 16 and written back as hex are the same pairs in lower case |
| `Surface.ChannelsOfHexColour` | components/ui/surface.tsx:64-70 | round trip: bytes r, g, b written as `#rrggbb` decode to the same r, g, b |
| `Surface.HexColourOfChannels` | components/ui/surface.tsx:64-70 | reverse round trip: a lower-case `#rrggbb` decoded and encoded again is unchanged |
| `Surface.ChannelsEqualIff` | components/ui/surface.tsx:65-68 | two inputs decode to the same channels exactly when their six digits agree up to case |
| `Surface.ChannelsIgnoreSuffix` | components/ui/surface.tsx:65-68 | characters after the six digits, such as an alpha pair, do not change the decoded channels |
| `Surface.ChannelsOfPairs` | components/ui/surface.tsx:66-68 | a `#RRGGBB` colour decodes to the values of its three digit pairs |
| `Surface.ChannelsOfDigits` | components/ui/surface.tsx:66-68 | a colour given as three digit pairs decodes to their values |
| `Surface.PrimaryChannels` | constants/design.ts:2 | `Palette.primary` decodes to 121, 188, 210 |
| `Surface.PeachChannels` | constants/design.ts:9 | `Palette.peach`, written in upper case, decodes to 250, 217, 198 |
| `Surface.SageChannels` | constants/design.ts:10 | `Palette.sage`, written in upper case, decodes to 146, 177, 157 |
| `Surface.FoamChannels` | constants/design.ts:12 | `Palette.foam` decodes to 215, 236, 244 |
| `Surface.InkChannels` | constants/design.ts:6 | `Palette.ink` decodes to 16, 22, 24 |
| `Surface.AddAlpha` | components/ui/surface.tsx:64-70 | the result is `rgba(r, g, b, alpha)` with the decoded channels in canonical decimal text, and it parses back to exactly those channels and the alpha text |
| `Surface.RgbaText` | components/ui/surface.tsx:69 | the template's frame: it starts with `rgba(`, ends with `)`, and holds the three channels' decimal text and the alpha text plus twelve characters of punctuation; `Surface.RgbaParsesBack` reads its content back |
| `Surface.ReadChannelOfShow` | components/ui/surface.tsx:69 | a decimal channel followed by `, ` reads back as that channel and the rest |
| `Surface.RgbaParsesBack` | components/ui/surface.tsx:69 | the rgba text of any channels and any alpha text parses back to them |
| `Surface.AddAlphaInjective` | components/ui/surface.tsx:64-70 | two `addAlpha` outputs are equal exactly when the inputs decode to the same channels and the alpha text is the same |
| `Surface.ToneColour` | components/ui/surface.tsx:49-62 | every tone, including the default branch, gives a `#RRGGBB` colour; the colour is `Palette.ink` exactly for `neutral` |
| `Surface.ToneChannels` | components/ui/surface.tsx:49-68 | each tone's palette colour decodes to the channels written in the palette |
| `Surface.ToneColourInjective` | components/ui/surface.tsx:49-62 | distinct tones give distinct colours and distinct decoded channels |
| `Surface.ChannelsFromText` | components/ui/surface.tsx:65-68 | an input whose six digits are, up to case, the hex text of a colour decodes to that colour |
| `Surface.EffectiveScheme` | components/ui/surface.tsx:25 | a missing colour scheme falls back to `light`; a present one is kept |
| `Surface.Background` | components/ui/surface.tsx:27-32 | `tonal` is exactly the `addAlpha` text of the tone's colour with alpha 0.18 when dark and 0.3 otherwise, and it reads back as those channels and alpha; `raised` and `flat` use the scheme's surface colour |
| `Surface.BackgroundIgnoresTone` | components/ui/surface.tsx:27-32 | outside `tonal` the tone does not affect the background |
| `Surface.TonalBackgroundInjective` | components/ui/surface.tsx:27-32 | on a tonal surface different tones give different backgrounds |
| `Surface.SurfaceStyleOf` | components/ui/surface.tsx:17-42 | defaults are variant `raised`, tone `neutral`, padding 16 and scheme `light`; the border width is 0 exactly for `flat`; the card shadow is present exactly for `raised` |
| `Surface.DefaultSurface` | components/ui/surface.tsx:17-42 | with no props and no scheme the surface is a raised light card with padding 16 |
| `Surface.DefaultToneIsInk` | components/ui/surface.tsx:21-31 | a tonal surface with the default tone is tinted with ink's channels 16, 22, 24 |
| `Surface.PaletteReadable` | constants/design.ts:1-13 | every palette colour has the `#RRGGBB` form the decoder needs |
| `Surface.RgbaTextOf` | components/ui/surface.tsx:69 | the rgba text is the decimal text of the three channels and the alpha, in that order, separated by `, ` |
| `Surface.ShowShadowChannels` | components/ui/surface.tsx:69 | the channel values of the shadow colours print as their usual decimal text |
| `Surface.CardShadowText` | constants/design.ts:25 | the rgba text of channels 16, 22, 24 with alpha `0.08` is the card shadow colour |
| `Surface.SoftShadowText` | constants/design.ts:32 | the rgba text of channels 121, 188, 210 with alpha `0.2` is the soft shadow colour |
| `Surface.CardShadowFromInk` | constants/design.ts:25 | the card shadow colour is `addAlpha(Palette.ink, 0.08)` |
| `Surface.SoftShadowFromPrimary` | constants/design.ts:32 | the soft shadow colour is `addAlpha(Palette.primary, 0.2)` |
| `Pill.BaseColour` | components/ui/pill.tsx:21-34 | a non-ink tone starts from a `#RRGGBB` palette colour |
| `Pill.GetTone` | components/ui/pill.tsx:21-34 | `ink` gives `rgba(16, 22, 24, 0.08)`; every other tone, and an omitted one, gives its palette colour followed by exactly two hex digits whose value is 77 for peach, 51 for sage, 61 for foam and 43 for primary |
| `Pill.PillBackground` | components/ui/pill.tsx:11-12 | the component's default `primary` gives the same background as passing no tone to `getTone`, which is `Palette.primary + "2b"` |
| `Pill.TintDecodesToPalette` | components/ui/pill.tsx:23-32 | the 8-digit result decodes, on its first six digits, to the palette colour's channels |
| `Pill.InkIsPaletteInk` | components/ui/pill.tsx:29-30 | the fixed ink string is exactly what `addAlpha` makes of `Palette.ink` with alpha 0.08 |
| `Pill.GetToneInjective` | components/ui/pill.tsx:21-34 | different tones give different backgrounds; only `primary` and an omitted tone coincide |
| `ProgressBar.Max` | components/ui/progress-bar.tsx:12 | `Math.max` is one of its arguments and no smaller than either |
| `ProgressBar.Min` | components/ui/progress-bar.tsx:12 | `Math.min` is one of its arguments and no larger than either |
| `ProgressBar.Width` | components/ui/progress-bar.tsx:12 | the width lies in 0..100; a value already in range is kept; a value below 0 gives 0 and one above 100 gives 100 |
| `ProgressBar.WidthIdempotent` | components/ui/progress-bar.tsx:12 | clamping a clamped width changes nothing |
| `ProgressBar.WidthMonotone` | components/ui/progress-bar.tsx:12 | a larger value never gives a narrower bar |
| `ProgressBar.WidthIsNearest` | components/ui/progress-bar.tsx:12 | the width is the point of 0..100 nearest to the value |

## Left out

- Rendering is not modelled: the `View` trees, `StyleSheet.create`, the caller's `style` override and the children.
- The colour-scheme hook is not part of this model. Its result arrives as a parameter that may be missing.
- `Colors[scheme].surface` and `Colors[scheme].border` stay symbolic, as `SchemeSurface(scheme)` and `borderScheme`. The theme table in constants/theme.ts:11-28 defines neither entry, so at run time both lookups give `undefined`. The model does not pretend to know a colour there.
- `Surface.AddAlpha` takes the alpha as the text JavaScript prints for the number (`"0.18"`, `"0.3"`). Number formatting is not modelled.
- `Surface.Channels` requires that the first six characters of the input, once its first `#` is removed, are hex digits. Outside that, `parseInt` is lenient: it skips leading white space, accepts a sign and a `0x` prefix, stops at the first non-hex character and gives `NaN` on an empty slice (a 3-digit colour such as `#fff`). None of that is modelled. Every colour the components pass to `addAlpha` meets the requirement, as `Surface.PaletteReadable` shows.
- `ProgressBar.Width` works over the reals. `NaN`, `-0` and the infinities of JavaScript numbers are not modelled. Printing the width as a `%` string is not modelled either.
- Props given as `null` rather than omitted are not modelled. The TypeScript types exclude them.

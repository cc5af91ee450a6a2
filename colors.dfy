/** The colours the choropleth scales produce and the arithmetic they share:
    clamping to [0, 1], `Math.round`, and the five-band palette. */
module Colors {

  /** The five palette bands, from least to most severe. */
  datatype Band = Green | Lime | Yellow | Orange | Red

  function BandLevel(b: Band): (n: nat)
    ensures n <= 4
  {
    match b
    case Green => 0
    case Lime => 1
    case Yellow => 2
    case Orange => 3
    case Red => 4
  }

  function BandHex(b: Band): string
  {
    match b
    case Green => "#33cc33"
    case Lime => "#99cc33"
    case Yellow => "#ffcc00"
    case Orange => "#ff9933"
    case Red => "#ff3333"
  }

  /** The "no data" greys: `'#e0e0e0'` and `'#ccc'`. */
  datatype Gray = SoftGray | LightGray

  function GrayHex(g: Gray): string
  {
    match g
    case SoftGray => "#e0e0e0"
    case LightGray => "#ccc"
  }

  /** A fill colour: a palette band, `hsl(hue, ...)`, `rgb(r, g, b)` or a grey. */
  datatype Color = Swatch(band: Band) | Hue(degrees: real) | Rgb(red: int, green: int, blue: int) | Neutral(gray: Gray)

  /** `Math.max(0, Math.min(1, x))`. */
  function Clamp01(x: real): (r: real)
    ensures 0.0 <= r <= 1.0
    ensures 0.0 <= x <= 1.0 ==> r == x
    ensures x <= 0.0 ==> r == 0.0
    ensures x >= 1.0 ==> r == 1.0
  {
    if x < 0.0 then 0.0 else if x > 1.0 then 1.0 else x
  }

  lemma Clamp01Monotone(x: real, y: real)
    requires x <= y
    ensures Clamp01(x) <= Clamp01(y)
  {
  }

  /** `Math.round(x)`: the nearest integer, halves rounded up. */
  function Round(x: real): (r: int)
    ensures r as real <= x + 0.5 < r as real + 1.0
  {
    (x + 0.5).Floor
  }

  lemma RoundMonotone(x: real, y: real)
    requires x <= y
    ensures Round(x) <= Round(y)
  {
  }

  lemma RoundBounds(x: real, lo: int, hi: int)
    requires lo as real <= x <= hi as real
    ensures lo <= Round(x) <= hi
  {
  }

  /** `(1 - percent) * 120`: 120 degrees (green) at 0, 0 degrees (red) at 1. */
  function HueOf(percent: real): (h: real)
    ensures 0.0 <= percent <= 1.0 ==> 0.0 <= h <= 120.0
  {
    (1.0 - percent) * 120.0
  }

  /** The palette's cut points: below 0.2 green, below 0.4 lime, below 0.6
      yellow, below 0.8 orange, red from 0.8 on. */
  function BandOf(p: real): (b: Band)
    ensures b == Green <==> p < 0.2
    ensures b == Red <==> p >= 0.8
  {
    if p < 0.2 then Green
    else if p < 0.4 then Lime
    else if p < 0.6 then Yellow
    else if p < 0.8 then Orange
    else Red
  }

  /** A larger fraction never falls in a less severe band. */
  lemma BandOfMonotone(p: real, q: real)
    requires p <= q
    ensures BandLevel(BandOf(p)) <= BandLevel(BandOf(q))
  {
  }
}

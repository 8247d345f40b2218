/** `nameColor` in app.js: the coarse hue name the colour sampler shows.
    Only the hue is modelled; the brightness/tone value the function computes
    and then discards is not. */
module ColorNames {

  function Max3(r: int, g: int, b: int): int
  {
    if r >= g && r >= b then r else if g >= b then g else b
  }

  function Min3(r: int, g: int, b: int): int
  {
    if r <= g && r <= b then r else if g <= b then g else b
  }

  /** The seven names `nameColor` can produce. */
  predicate IsHueName(s: string)
  {
    s in {"Neutral", "Warm Red", "Magenta", "Olive", "Green", "Violet", "Blue"}
  }

  /** `nameColor(r, g, b)`: "Neutral" for a channel spread under 15, otherwise
      the first of six tests on the largest channel that succeeds. The chain
      starts from "Neutral", which is what it returns should no test succeed. */
  function NameColor(r: int, g: int, b: int): (name: string)
    ensures IsHueName(name)
  {
    var max := Max3(r, g, b);
    var min := Min3(r, g, b);
    if max - min < 15 then "Neutral"
    else if max == r && g >= b then "Warm Red"
    else if max == r && g < b then "Magenta"
    else if max == g && r >= b then "Olive"
    else if max == g && r < b then "Green"
    else if max == b && r >= g then "Violet"
    else if max == b && r < g then "Blue"
    else "Neutral"
  }

  /** "Neutral" comes out exactly for a spread below 15: the trailing default
      of the chain is never reached. */
  lemma NeutralIffLowSpread(r: int, g: int, b: int)
    ensures NameColor(r, g, b) == "Neutral" <==> Max3(r, g, b) - Min3(r, g, b) < 15
  {
  }

  /** Each bucket as a condition on the channels alone, independent of the
      order of the tests: which channel is largest (ties going to red, then
      green) and how the other two compare. The six conditions are disjoint
      and together cover every colour with a spread of at least 15. */
  lemma HueBuckets(r: int, g: int, b: int)
    ensures var wide := Max3(r, g, b) - Min3(r, g, b) >= 15;
      && (NameColor(r, g, b) == "Warm Red" <==> wide && r >= g && r >= b && g >= b)
      && (NameColor(r, g, b) == "Magenta" <==> wide && r >= g && r >= b && g < b)
      && (NameColor(r, g, b) == "Olive" <==> wide && g > r && g >= b && r >= b)
      && (NameColor(r, g, b) == "Green" <==> wide && g > r && g >= b && r < b)
      && (NameColor(r, g, b) == "Violet" <==> wide && b > r && b > g && r >= g)
      && (NameColor(r, g, b) == "Blue" <==> wide && b > r && b > g && r < g)
  {
  }

  /** Ties between the two largest channels go to the earlier test:
      r = g > b is "Warm Red", r = b > g is "Magenta", g = b > r is "Green". */
  lemma TieBreaks(hi: int, lo: int)
    requires hi - lo >= 15
    ensures NameColor(hi, hi, lo) == "Warm Red"
    ensures NameColor(hi, lo, hi) == "Magenta"
    ensures NameColor(lo, hi, hi) == "Green"
  {
  }

  /** Two sample colours: (200, 50, 50) is "Warm Red" and (10, 10, 12) is
      "Neutral". */
  lemma NamedExamples()
    ensures NameColor(200, 50, 50) == "Warm Red"
    ensures NameColor(10, 10, 12) == "Neutral"
  {
  }
}

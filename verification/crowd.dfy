/** The crowd level both the fleet roster and the station directory carry,
    its display name (the TypeScript union `'Low' | 'Medium' | 'High'`), and
    the colour switch and light-theme classes both `getCrowdColor` functions share. */
module Crowd {

  datatype CrowdLevel = Low | Medium | High

  /** The string the union type stands for. */
  function Name(level: CrowdLevel): (s: string)
    ensures s in ["Low", "Medium", "High"]
  {
    match level
    case Low => "Low"
    case Medium => "Medium"
    case High => "High"
  }

  /** Distinct levels have distinct names, so a colour lookup by name tells them apart. */
  lemma NameInjective(a: CrowdLevel, b: CrowdLevel)
    ensures Name(a) == Name(b) <==> a == b
  {
  }

  /** The colour family of a crowd badge. */
  datatype Tone = Green | Yellow | Red | Gray

  /** The `switch` of `getCrowdColor`: one colour per level name, grey for any other string. */
  function BadgeTone(level: string): (t: Tone)
    ensures t == Green <==> level == "Low"
    ensures t == Yellow <==> level == "Medium"
    ensures t == Red <==> level == "High"
    ensures t == Gray <==> level != "Low" && level != "Medium" && level != "High"
  {
    if level == "Low" then Green
    else if level == "Medium" then Yellow
    else if level == "High" then Red
    else Gray
  }

  /** Every crowd level gets its own colour, never the grey fallback. */
  lemma BadgeToneSeparatesLevels(a: CrowdLevel, b: CrowdLevel)
    ensures BadgeTone(Name(a)) == BadgeTone(Name(b)) <==> a == b
    ensures BadgeTone(Name(a)) != Gray
  {
  }

  /** The light-theme classes both badges start with: text and background of the tone's hue. */
  function LightClass(t: Tone): string {
    match t
    case Green => "text-green-600 bg-green-100"
    case Yellow => "text-yellow-600 bg-yellow-100"
    case Red => "text-red-600 bg-red-100"
    case Gray => "text-gray-600 bg-gray-100"
  }

  /** The eighth character of the light classes already tells the tones apart
      (the third letter of the hue: gr*e*en, ye*l*low, re*d*, gr*a*y). */
  lemma LightClassMarksTone(t: Tone)
    ensures |LightClass(t)| > 7
    ensures LightClass(t)[7] == match t case Green => 'e' case Yellow => 'l' case Red => 'd' case Gray => 'a'
  {
  }

  /** No other tone has the same light classes. */
  lemma LightClassSeparatesTones(t: Tone)
    ensures forall u :: LightClass(u) == LightClass(t) <==> u == t
  {
    LightClassMarksTone(t);
    forall u | u != t
      ensures LightClass(u) != LightClass(t)
    {
      LightClassMarksTone(u);
    }
  }
}

/** The presentation layer: from the active colour to three indicators (red,
    yellow, green), each styled and labelled "On" or "Off" according to
    whether it is the active one. Only the parts of the rendering that depend
    on the state are modelled: the per-colour class choice and the status
    caption. */
module Presentation {
  import opened Phases

  /** Whether the indicator for `color` is lit while `activeLight` is shown.
      The colours are compared by name, as string literals; since the names
      are distinct, that is the same as the colours being equal. */
  function IsActive(activeLight: LightColor, color: LightColor): (r: bool)
    ensures r <==> activeLight == color
  {
    ColorName(activeLight) == ColorName(color)
  }

  /** The colour's name as it appears in the style classes. */
  function ColorName(color: LightColor): string
  {
    match color
    case Red => "red"
    case Yellow => "yellow"
    case Green => "green"
  }

  /** The background classes of an indicator: a bright, glowing variant when
      lit and a dim one when not. The lookup is exhaustive over the colours,
      and every variant belongs to the indicator's own colour. */
  function ColorClasses(color: LightColor, isActive: bool): (style: string)
    ensures "bg-" + ColorName(color) + "-" <= style
  {
    match color
    case Red =>
      if isActive then "bg-red-500 shadow-lg shadow-red-500/50" else "bg-red-900/30"
    case Yellow =>
      if isActive then "bg-yellow-500 shadow-lg shadow-yellow-500/50" else "bg-yellow-900/30"
    case Green =>
      if isActive then "bg-green-500 shadow-lg shadow-green-500/50" else "bg-green-900/30"
  }

  /** The parenthesised status text next to an indicator: one of two
      distinct words, chosen by whether it is lit. */
  function Status(isActive: bool): (text: string)
    ensures text == "On" <==> isActive
    ensures text == "Off" <==> !isActive
  {
    if isActive then "On" else "Off"
  }

  /** What one rendered indicator shows. */
  datatype Light = Light(color: LightColor, caption: string, style: string, status: string)

  /** One indicator: it keeps its own colour and caption, and its style is
      always one of its own colour's two variants. */
  function RenderLight(activeLight: LightColor, color: LightColor, caption: string): (l: Light)
    ensures l.color == color && l.caption == caption
    ensures "bg-" + ColorName(color) + "-" <= l.style
  {
    var isActive := IsActive(activeLight, color);
    Light(color, caption, ColorClasses(color, isActive), Status(isActive))
  }

  /** The three indicators, top to bottom: red, yellow and green, whatever
      colour is active. */
  function Panel(activeLight: LightColor): (p: seq<Light>)
    ensures |p| == 3
    ensures p[0].color == Red && p[0].caption == "Red"
    ensures p[1].color == Yellow && p[1].caption == "Yellow"
    ensures p[2].color == Green && p[2].caption == "Green"
  {
    [ RenderLight(activeLight, Red, "Red"),
      RenderLight(activeLight, Yellow, "Yellow"),
      RenderLight(activeLight, Green, "Green") ]
  }

  /** Number of indicators in `lights` whose status reads "On". */
  function CountOn(lights: seq<Light>): nat
  {
    if lights == [] then 0
    else (if lights[0].status == "On" then 1 else 0) + CountOn(lights[1..])
  }

  /** The six style strings are pairwise distinct, so a style tells both the
      colour and whether it is lit. */
  lemma ColorClassesInjective(c1: LightColor, b1: bool, c2: LightColor, b2: bool)
    ensures ColorClasses(c1, b1) == ColorClasses(c2, b2) ==> c1 == c2 && b1 == b2
  {
  }

  /** An indicator shows the lit style and reads "On" exactly when its colour
      is the active one; otherwise it shows the dim style and reads "Off". */
  lemma LightReflectsActivity(activeLight: LightColor, color: LightColor, caption: string)
    ensures RenderLight(activeLight, color, caption).color == color
    ensures RenderLight(activeLight, color, caption).caption == caption
    ensures RenderLight(activeLight, color, caption).status == "On" <==> activeLight == color
    ensures RenderLight(activeLight, color, caption).status == "Off" <==> activeLight != color
    ensures (RenderLight(activeLight, color, caption).style == ColorClasses(color, true))
              <==> activeLight == color
    ensures (RenderLight(activeLight, color, caption).style == ColorClasses(color, false))
              <==> activeLight != color
  {
  }

  /** Exactly one of the three indicators is lit: the one whose colour is
      active. */
  lemma ExactlyOneOn(activeLight: LightColor)
    ensures CountOn(Panel(activeLight)) == 1
    ensures forall i :: 0 <= i < 3 ==>
              (Panel(activeLight)[i].status == "On" <==> Panel(activeLight)[i].color == activeLight)
  {
  }
}

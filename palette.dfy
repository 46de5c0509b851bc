/** Colour-range selection for the charts (`adjust_color_intensity`): the
    named seven-colour scheme, cut after `intensity + 1` colours. */
module Palette {
  import opened Wrappers

  /** The exception a lookup of an unknown scheme name raises. */
  datatype KeyError = KeyError(key: string)

  /** Each scheme, from its lightest colour to its darkest. */
  const ColorSchemes: map<string, seq<string>> := map[
    "Reds" := ["#ffcccc", "#ff9999", "#ff6666", "#ff3333", "#ff0000", "#cc0000", "#990000"],
    "Blues" := ["#cceeff", "#99ddff", "#66ccff", "#33bbff", "#00aaff", "#0088cc", "#006699"],
    "Greens" := ["#ccffcc", "#99ff99", "#66ff66", "#33ff33", "#00ff00", "#00cc00", "#009900"],
    "Purples" := ["#f3e5f5", "#e1bee7", "#ce93d8", "#ba68c8", "#ab47bc", "#8e24aa", "#6a1b9a"],
    "Oranges" := ["#ffe0b2", "#ffcc80", "#ffb74d", "#ffa726", "#ff9800", "#fb8c00", "#ef6c00"],
    "Teals" := ["#e0f7fa", "#b2ebf2", "#80deea", "#4dd0e1", "#26c6da", "#00acc1", "#00838f"],
    "Yellows" := ["#fff9c4", "#fff59d", "#fff176", "#ffee58", "#ffeb3b", "#fdd835", "#fbc02d"],
    "Pinks" := ["#f8bbd0", "#f48fb1", "#f06292", "#ec407a", "#e91e63", "#d81b60", "#c2185b"],
    "Browns" := ["#d7ccc8", "#bcaaa4", "#a1887f", "#8d6e63", "#795548", "#6d4c41", "#5d4037"],
    "Grays" := ["#f5f5f5", "#eeeeee", "#e0e0e0", "#bdbdbd", "#9e9e9e", "#757575", "#616161"]
  ]

  /** The scheme names the sidebar offers. */
  const SchemeOptions: seq<string> :=
    ["Reds", "Blues", "Greens", "Purples", "Oranges", "Teals", "Yellows", "Pinks", "Browns", "Grays"]

  /** The range of the sidebar's intensity slider. */
  const MinIntensity: int := 0
  const MaxIntensity: int := 10

  /** Python's `s[:stop]`: a prefix of `s` of `stop` elements, of all of
      them when `stop` is past the end, and for a negative `stop` of all but
      the last `-stop` elements (none when `-stop` exceeds the length). */
  function SliceTo<T>(s: seq<T>, stop: int): (r: seq<T>)
    ensures |r| <= |s| && r == s[..|r|]
    ensures 0 <= stop <= |s| ==> |r| == stop
    ensures stop > |s| ==> |r| == |s|
    ensures -|s| <= stop < 0 ==> |r| == |s| + stop
    ensures stop < -|s| ==> r == []
  {
    if stop >= 0 then s[..if stop <= |s| then stop else |s|]
    else s[..if |s| + stop >= 0 then |s| + stop else 0]
  }

  /** The colours of the named scheme up to the chosen intensity; an
      unknown name is a `KeyError`. */
  function AdjustColorIntensity(scale: string, intensity: int): (r: Result<seq<string>, KeyError>)
    ensures r.Err? <==> scale !in ColorSchemes
    ensures r.Err? ==> r.error == KeyError(scale)
    ensures r.Ok? ==> |r.value| <= |ColorSchemes[scale]| && r.value == ColorSchemes[scale][..|r.value|]
  {
    if scale in ColorSchemes then Ok(SliceTo(ColorSchemes[scale], intensity + 1))
    else Err(KeyError(scale))
  }

  /** Every scheme has seven colours. */
  lemma SchemesHaveSevenColours()
    ensures forall name :: name in ColorSchemes ==> |ColorSchemes[name]| == 7
  {
  }

  /** For a non-negative intensity the result is the first
      `min(intensity + 1, 7)` colours of the scheme; it is never empty. */
  lemma IntensityPrefix(scale: string, intensity: int)
    requires scale in ColorSchemes && intensity >= 0
    ensures var r := AdjustColorIntensity(scale, intensity);
            && r.Ok?
            && |r.value| == (if intensity + 1 <= 7 then intensity + 1 else 7)
            && r.value == ColorSchemes[scale][..|r.value|]
            && r.value != []
  {
    SchemesHaveSevenColours();
  }

  /** A higher intensity extends the range: the lower intensity's colours
      are a prefix of the higher one's. */
  lemma IntensityMonotone(scale: string, low: int, high: int)
    requires scale in ColorSchemes && 0 <= low <= high
    ensures var a, b := AdjustColorIntensity(scale, low), AdjustColorIntensity(scale, high);
            a.Ok? && b.Ok? && |a.value| <= |b.value| && a.value == b.value[..|a.value|]
  {
    IntensityPrefix(scale, low);
    IntensityPrefix(scale, high);
  }

  /** Every choice the sidebar allows succeeds: each offered name is a known
      scheme, and each slider position gives between one and seven colours. */
  lemma SidebarChoicesSucceed(scale: string, intensity: int)
    requires scale in SchemeOptions && MinIntensity <= intensity <= MaxIntensity
    ensures var r := AdjustColorIntensity(scale, intensity);
            r.Ok? && 1 <= |r.value| <= 7
  {
    assert scale in ColorSchemes;
    IntensityPrefix(scale, intensity);
  }
}

/**
 `setTheme`: chooses between the dark and the light palette once at start-up.
 The page's query string and the browser's `prefers-color-scheme: dark` answer
 are inputs; the result is whether the root element ends up with the `dark`
 class.
 */
module Theme {
  import opened JsString

  const DarkOverride := "theme=dark"
  const LightOverride := "theme=light"

  /** The query string asks for a palette explicitly. */
  predicate Overrides(query: string) {
    Includes(query, DarkOverride) || Includes(query, LightOverride)
  }

  /** `theme=dark` anywhere in the query wins, then `theme=light`, and only
      without either does the system preference decide. The contract reads
      "anywhere" as some window of the query spelling the setting. */
  function DarkTheme(query: string, prefersDark: bool): (dark: bool)
    ensures dark <==>
      ((exists i: nat :: OccursAt(query, DarkOverride, i))
       || (!(exists i: nat :: OccursAt(query, LightOverride, i)) && prefersDark))
  {
    IncludesIff(query, DarkOverride);
    IncludesIff(query, LightOverride);
    if Includes(query, DarkOverride) then true
    else if Includes(query, LightOverride) then false
    else prefersDark
  }

  /** An explicit choice in the query makes the system preference irrelevant. */
  lemma OverrideIgnoresSystem(query: string)
    requires Overrides(query)
    ensures DarkTheme(query, true) == DarkTheme(query, false)
  {
  }

  /** A query naming both settings, such as `?theme=light&theme=dark`, gets the
      dark theme, whatever order they appear in and whatever the system prefers. */
  lemma DarkWinsOverLight(query: string, prefersDark: bool, d: nat, l: nat)
    requires OccursAt(query, DarkOverride, d) && OccursAt(query, LightOverride, l)
    ensures DarkTheme(query, prefersDark)
  {
  }
}

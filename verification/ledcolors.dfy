/** The LED palette shared by the device page and the dashboard's device
    controls, and the name-to-code table built from it with
    `Object.fromEntries`. */
module LedColors {
  import opened Options

  datatype LedColor = LedColor(name: string, value: string)

  /** The nine colours in menu order; the first is the default. */
  const Palette: seq<LedColor> := [
    LedColor("RED", "#FF0000"),
    LedColor("BLACK", "#2E2E2E"),
    LedColor("WHITE", "#F2F2F2"),
    LedColor("PURPLE", "#7E3F98"),
    LedColor("MAGENTA", "#FF00FF"),
    LedColor("CYAN", "#00CFFF"),
    LedColor("GREEN", "#00B050"),
    LedColor("YELLOW", "#FFFF00"),
    LedColor("ORANGE", "#F79646")
  ]

  const DefaultColor := Palette[0]

  /** `Object.fromEntries(entries.map(c => [c.name, c.value]))`: a later
      entry overwrites an earlier one with the same name. */
  function FromEntries(entries: seq<LedColor>): (m: map<string, string>)
    ensures forall k :: k in m <==> exists i :: 0 <= i < |entries| && entries[i].name == k
    decreases |entries|
  {
    if |entries| == 0 then map[]
    else
      var last := entries[|entries| - 1];
      var m := FromEntries(entries[..|entries| - 1]);
      assert forall i :: 0 <= i < |entries| - 1 ==> entries[..|entries| - 1][i] == entries[i];
      m[last.name := last.value]
  }

  /** No two entries share a name. */
  predicate DistinctNames(entries: seq<LedColor>) {
    forall i, j :: 0 <= i < j < |entries| ==> entries[i].name != entries[j].name
  }

  /** With distinct names every entry's name maps to its own code. */
  lemma {:induction false} FromEntriesLookup(entries: seq<LedColor>)
    requires DistinctNames(entries)
    ensures forall i :: 0 <= i < |entries| ==> FromEntries(entries)[entries[i].name] == entries[i].value
    decreases |entries|
  {
    if |entries| > 0 {
      var init := entries[..|entries| - 1];
      FromEntriesLookup(init);
      assert forall i :: 0 <= i < |init| ==> init[i] == entries[i];
    }
  }

  /** `colorMap`. */
  const ColorMap: map<string, string> := FromEntries(Palette)

  /** `colorMap[name]`: `undefined` becomes `None`. */
  function Lookup(name: string): (r: Option<string>)
    ensures r.Some? <==> name in ColorMap
    ensures r.Some? ==> r.value == ColorMap[name]
  {
    if name in ColorMap then Some(ColorMap[name]) else None
  }

  /** The table holds exactly the nine palette pairs. */
  lemma ColorMapIsPalette()
    ensures forall k :: k in ColorMap <==> exists i :: 0 <= i < |Palette| && Palette[i].name == k
    ensures forall i :: 0 <= i < |Palette| ==> Lookup(Palette[i].name) == Some(Palette[i].value)
  {
    assert DistinctNames(Palette);
    FromEntriesLookup(Palette);
  }

  /** "BLUE", which the colour selector offers, is not in the table. */
  lemma BlueIsMissing()
    ensures Lookup("BLUE") == None
  {
    assert forall i :: 0 <= i < |Palette| ==> Palette[i].name != "BLUE";
  }
}

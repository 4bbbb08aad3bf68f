/**
 * The plain-TypeScript app: its state (loading flag, multiplier, filter text and
 * the people loaded so far) with the setters that change it, and the helpers that
 * turn names into element ids and decide which rows the filter shows. Drawing the
 * table, the listeners and the other DOM work are not part of this model; each
 * re-render of the table is only counted.
 */
module VanillaApp {
  import opened Wrappers
  import opened Text
  import opened Person
  import Localization

  /** The table's columns, and the id suffix of each. */
  datatype Col = NameCol | HeightCol | MassCol | PowerCol

  function ColValue(col: Col): (value: string)
    ensures 8 <= |value| <= 10 && value[..4] == "col-"
  {
    match col
    case NameCol => "col-name"
    case HeightCol => "col-height"
    case MassCol => "col-mass"
    case PowerCol => "col-power"
  }

  /** The prefix of every id the app gives an element. */
  const VanillaPrefix: string := "v-"

  /** `standardized(value)`: lower case, with the first " " (only that one) turned into "-". */
  function Standardized(value: string): (r: string)
    ensures |r| == |value|
  {
    ReplaceFirst(ToLower(value), " ", "-")
  }

  /** Each character of a standardized string: "-" at the first space, else the character lowered. */
  lemma StandardizedChars(value: string)
    ensures forall i :: 0 <= i < |value| ==>
      Standardized(value)[i] == if IndexOf(value, " ") == Some(i) then '-' else LowerChar(value[i])
  {
    LowerKeepsFirstSpace(value);
    var t, r := ToLower(value), Standardized(value);
    match IndexOf(value, " ")
    case None =>
    case Some(k) =>
      forall i | 0 <= i < |value|
        ensures r[i] == if i == k then '-' else LowerChar(value[i])
      {
        if i < k {
          assert r[i] == r[..k][i] == t[..k][i];
        } else if i == k {
          assert r[i] == r[k..k + 1][0];
        } else {
          assert r[i] == r[k + 1..][i - k - 1] == t[k + 1..][i - k - 1];
        }
      }
  }

  /** A value that does not start with a space keeps its first character, lowered. */
  lemma StandardizedHead(value: string)
    requires value != [] && value[0] != ' '
    ensures Standardized(value)[0] == LowerChar(value[0])
  {
    var t := ToLower(value);
    match IndexOf(t, " ")
    case None =>
    case Some(k) =>
      assert t[k..k + 1] == [t[k]];
      assert Standardized(value)[..k] == t[..k];
  }

  /** Standardizing ignores case. */
  lemma StandardizedIgnoresCase(value: string)
    ensures Standardized(ToLower(value)) == Standardized(value)
  {
    var lowered := ToLower(value);
    LowerKeepsFirstSpace(value);
    StandardizedChars(value);
    StandardizedChars(lowered);
    assert forall i :: 0 <= i < |value| ==> LowerChar(lowered[i]) == LowerChar(value[i]);
  }

  /** `toId(value)`: the prefix, then the standardized value. */
  function ToId(value: string): (id: string)
    ensures |id| == |value| + 2 && id[..2] == VanillaPrefix
  {
    VanillaPrefix + Standardized(value)
  }

  /** `getColId(rowId, col)`. */
  function GetColId(rowId: string, col: Col): string {
    rowId + "-" + ColValue(col)
  }

  lemma CommonSuffix(s: string, r: string, x: string, r': string, x': string)
    requires s == r + x && s == r' + x' && |x| <= |x'|
    ensures x'[|x'| - |x|..] == x
    ensures |x| == |x'| ==> r == r'
  {
    assert x == s[|r|..] && x' == s[|r'|..];
    assert r == s[..|r|] && r' == s[..|r'|];
  }

  /** Different columns have different id suffixes. */
  lemma ColValueInjective(col: Col, col': Col)
    requires ColValue(col) == ColValue(col')
    ensures col == col'
  {
  }

  /** "-" + one column's suffix ends "-" + another's only when the columns are the same. */
  lemma ColSuffixes(col: Col, col': Col)
    requires var x, x' := "-" + ColValue(col), "-" + ColValue(col'); |x| <= |x'| && x'[|x'| - |x|..] == x
    ensures col == col'
  {
    var x, x' := "-" + ColValue(col), "-" + ColValue(col');
    var k := |x'| - |x|;
    assert x'[k..][0] == x[0] == '-';
    assert x'[1..5] == ColValue(col')[..4] == "col-";
    if k == 0 {
      assert ColValue(col) == x[1..] == x'[1..] == ColValue(col');
      ColValueInjective(col, col');
    }
  }

  lemma ColIdSplit(rowId: string, col: Col)
    ensures GetColId(rowId, col) == rowId + ("-" + ColValue(col))
  {
  }

  /** Cell ids are unique: different rows or different columns give different ids. */
  lemma ColIdInjective(rowId: string, col: Col, rowId': string, col': Col)
    requires GetColId(rowId, col) == GetColId(rowId', col')
    ensures rowId == rowId' && col == col'
  {
    var s := GetColId(rowId, col);
    var x, x' := "-" + ColValue(col), "-" + ColValue(col');
    ColIdSplit(rowId, col);
    ColIdSplit(rowId', col');
    if |x| <= |x'| {
      CommonSuffix(s, rowId, x, rowId', x');
      ColSuffixes(col, col');
    } else {
      CommonSuffix(s, rowId', x', rowId, x);
      ColSuffixes(col', col);
    }
  }

  /** What the power cell shows: a text, or the product that `toLocaleString` formats. */
  datatype PowerCell = PowerText(text: string) | PowerValue(value: real)

  /** The app's state and setters. */
  class App {
    const locale: Localization.AppLocale
    /** `DEFAULT_MULTIPLIER`, whose module is not part of this model. */
    const defaultMultiplier: int

    var isLoading: bool
    var multiplier: int
    var filterText: string
    var data: Option<seq<StarWarsPerson>>
    /** How many times the table has been re-rendered. */
    var rerenders: nat

    /** `initialState`. */
    predicate IsInitial()
      reads this
    {
      !isLoading && multiplier == defaultMultiplier && filterText == "" && data.None?
    }

    constructor(locale: Localization.AppLocale, defaultMultiplier: int)
      ensures this.locale == locale && this.defaultMultiplier == defaultMultiplier
      ensures IsInitial() && rerenders == 0
    {
      this.locale := locale;
      this.defaultMultiplier := defaultMultiplier;
      isLoading := false;
      multiplier := defaultMultiplier;
      filterText := "";
      data := None;
      rerenders := 0;
    }

    /** `translate`: the lookup for the app's locale, with EnglishUS as default locale. */
    function Translate(key: Localization.StringKey): (text: string)
      ensures text == Localization.Localized(locale, key)
    {
      var lookup := Localization.MakeUIStringLookup(Some(Localization.LookupSetup(Some(locale), Some(Localization.EnglishUS))));
      lookup(key).value
    }

    method SetLoading(isLoading: bool)
      modifies this
      ensures this.isLoading == isLoading
      ensures multiplier == old(multiplier) && filterText == old(filterText) && data == old(data)
      ensures rerenders == old(rerenders)
    {
      this.isLoading := isLoading;
    }

    method RerenderTable()
      modifies this
      ensures rerenders == old(rerenders) + 1
      ensures isLoading == old(isLoading) && multiplier == old(multiplier)
      ensures filterText == old(filterText) && data == old(data)
    {
      rerenders := rerenders + 1;
    }

    /** `setFilter`: an unchanged filter changes nothing and re-renders nothing. */
    method SetFilter(filterText: string)
      modifies this
      ensures this.filterText == filterText
      ensures rerenders == old(rerenders) + (if filterText == old(this.filterText) then 0 else 1)
      ensures isLoading == old(isLoading) && multiplier == old(multiplier) && data == old(data)
    {
      if filterText == this.filterText {
        return;
      }
      this.filterText := filterText;
      RerenderTable();
    }

    /** `setMultiplier`: an unchanged multiplier changes nothing and re-renders nothing. */
    method SetMultiplier(multiplier: int)
      modifies this
      ensures this.multiplier == multiplier
      ensures rerenders == old(rerenders) + (if multiplier == old(this.multiplier) then 0 else 1)
      ensures isLoading == old(isLoading) && filterText == old(filterText) && data == old(data)
    {
      if multiplier == this.multiplier {
        return;
      }
      this.multiplier := multiplier;
      RerenderTable();
    }

    /** `setData`: the new people are appended to those loaded so far, or become the data when there is none. */
    method SetData(people: seq<StarWarsPerson>)
      modifies this
      ensures data == Some(old(data).GetOr([]) + people)
      ensures isLoading == old(isLoading) && multiplier == old(multiplier) && filterText == old(filterText)
      ensures rerenders == old(rerenders)
    {
      var updatedData := if data.Some? then data.value + people else people;
      assert data.None? ==> updatedData == [] + people;
      data := Some(updatedData);
    }

    /** `resetState`: back to the initial state, re-rendering once per setting that changes. */
    method ResetState()
      modifies this
      ensures IsInitial()
      ensures rerenders == old(rerenders) + (if old(filterText) == "" then 0 else 1)
                                          + (if old(multiplier) == defaultMultiplier then 0 else 1)
    {
      SetLoading(false);
      SetFilter("");
      SetMultiplier(defaultMultiplier);
      data := None;
    }

    /**
     * `shouldRender(value)`: every value is shown while the filter is empty, and so is
     * an absent value; otherwise the standardized filter must occur in the
     * standardized value.
     */
    function ShouldRender(value: Option<string>): (shown: bool)
      reads this
      ensures filterText == "" || value.None? ==> shown
    {
      if |filterText| == 0 || value.None? then true
      else Includes(Standardized(value.value), Standardized(filterText))
    }

    /** Whether the row of the person named `name` is shown: the filter is applied to the row's id. */
    function RowShown(name: string): (shown: bool)
      reads this
      ensures filterText == "" ==> shown
    {
      ShouldRender(Some(ToId(name)))
    }

    /** Whether the row of the person named `name` is shown, with the filter applied to the name. */
    function RowShownByName(name: string): (shown: bool)
      reads this
      ensures filterText == "" ==> shown
    {
      ShouldRender(Some(name))
    }

    /**
     * `getPower(height, mass)`: without both numbers the cell shows the `incalculable`
     * text, which is "-" in every locale; with both it shows their product with the
     * multiplier.
     */
    function GetPower(height: Option<real>, mass: Option<real>): (cell: PowerCell)
      reads this
      ensures height.None? || mass.None? ==> cell == PowerText("-")
      ensures height.Some? && mass.Some? ==> cell.PowerValue?
      ensures height.Some? && mass.Some? ==> cell.value == height.value * mass.value * multiplier as real
    {
      Localization.IncalculableEverywhere(locale);
      if height.None? || mass.None? then PowerText(Translate(Localization.Incalculable))
      else PowerValue(height.value * mass.value * multiplier as real)
    }

    /** `getPower(person)`: the person's own height and mass. */
    function GetPowerOf(person: StarWarsPerson): (cell: PowerCell)
      reads this
      ensures person.height.None? || person.mass.None? ==> cell == PowerText("-")
    {
      GetPower(person.height, person.mass)
    }
  }

  /** Filtering by the row id ignores the case of both the filter and the name. */
  lemma RowShownIgnoresCase(app: App, name: string)
    requires app.filterText != ""
    ensures app.RowShown(name) <==> Includes(Standardized(ToId(ToLower(name))), Standardized(app.filterText))
  {
    StandardizedIgnoresCase(name);
  }

  /**
   * Because the filter is applied to the row id, the filter "v" shows every row, even
   * that of a name with no "v" in it.
   */
  lemma PrefixFilterShowsEveryRow(app: App, name: string)
    requires app.filterText == "v"
    ensures app.RowShown(name)
  {
    var id := ToId(name);
    assert id[0] == id[..2][0] == 'v';
    StandardizedHead(id);
    var s := Standardized(id);
    assert Standardized("v") == "v" by { StandardizedChars("v"); }
    assert OccursAt(s, "v", 0) by { assert s[0..1] == [s[0]]; }
  }

  /** With the filter applied to the name, the filter "v" hides every name without a "v" or "V". */
  lemma NameFilterHidesNamesWithoutV(app: App, name: string)
    requires app.filterText == "v"
    requires forall j :: 0 <= j < |name| ==> name[j] != 'v' && name[j] != 'V'
    ensures !app.RowShownByName(name)
  {
    var s := Standardized(name);
    StandardizedChars(name);
    assert Standardized("v") == "v" by { StandardizedChars("v"); }
    forall j: nat ensures !OccursAt(s, "v", j) {
      if j < |s| { MismatchAt(s, "v", j); }
    }
    IndexOfAbsent(s, "v");
  }

  /** With the filter applied to the name, a non-empty filter shows exactly the names it occurs in. */
  lemma RowShownByNameIff(app: App, name: string)
    requires app.filterText != ""
    ensures app.RowShownByName(name) <==>
      exists j: nat :: OccursAt(Standardized(name), Standardized(app.filterText), j)
  {
    IncludesIffOccurs(Standardized(name), Standardized(app.filterText));
  }
}

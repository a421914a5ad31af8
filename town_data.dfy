/** The table logic of town-data.py: the `Town` and `ShortTown` names of
    output areas and built-up areas, the `urban` flag, the railway station
    table, and the distance/density class ladder `get_class`.

    Distances and densities are exact reals: the rules only compare them
    with constants. */
module TownData {
  import opened Util

  // ---------------------------------------------------------------------
  // get_class

  /** The two columns `get_class` reads from a row. */
  datatype Row = Row(distance: real, density: real)

  /** One masked assignment `r[mask] = cls`: the mask is `distance > farther`,
      and also `density > denser` when a density bound is given. */
  datatype Rule = Rule(farther: real, denser: Option<real>, cls: int)

  predicate Matches(rule: Rule, row: Row)
  {
    row.distance > rule.farther && (rule.denser.None? || row.density > rule.denser.value)
  }

  /** The assignments of `get_class`, in the order the source makes them. */
  const Rules: seq<Rule> := [
    Rule(5.0e3, None, 1),
    Rule(10.0e3, None, 2),
    Rule(32.0e3, None, 3),
    Rule(5.0e3, Some(150.0), 4),
    Rule(5.0e3, Some(1500.0), 5),
    Rule(5.0e3, Some(2500.0), 6),
    Rule(5.0e3, Some(4500.0), 7)
  ]

  /** The value a row holds after `rules` ran over a Series of zeros: the
      class of the last rule that matches, since later writes win. */
  function ClassBy(rules: seq<Rule>, row: Row): int
  {
    if rules == [] then 0
    else if Matches(rules[|rules| - 1], row) then rules[|rules| - 1].cls
    else ClassBy(rules[..|rules| - 1], row)
  }

  /** The class `get_class` gives one row. */
  function ClassOf(row: Row): int
  {
    ClassBy(Rules, row)
  }

  /** The same classification written as a decision table: near a station
      class 0, otherwise the density band if the density exceeds 150, and
      the distance band if it does not. */
  function ClassTable(row: Row): int
  {
    if row.distance <= 5.0e3 then 0
    else if row.density > 4500.0 then 7
    else if row.density > 2500.0 then 6
    else if row.density > 1500.0 then 5
    else if row.density > 150.0 then 4
    else if row.distance > 32.0e3 then 3
    else if row.distance > 10.0e3 then 2
    else 1
  }

  /** The overwriting ladder and the decision table agree on every row. */
  lemma ClassOfIsTable(row: Row)
    ensures ClassOf(row) == ClassTable(row)
  {
    assert Rules[..7] == Rules;
    assert Rules[..7][..6] == Rules[..6];
    assert Rules[..6][..5] == Rules[..5];
    assert Rules[..5][..4] == Rules[..4];
    assert Rules[..4][..3] == Rules[..3];
    assert Rules[..3][..2] == Rules[..2];
    assert Rules[..2][..1] == Rules[..1];
    assert Rules[..1][..0] == [];
    var c0, c1, c2, c3 := ClassBy(Rules[..0], row), ClassBy(Rules[..1], row), ClassBy(Rules[..2], row), ClassBy(Rules[..3], row);
    var c4, c5, c6, c7 := ClassBy(Rules[..4], row), ClassBy(Rules[..5], row), ClassBy(Rules[..6], row), ClassBy(Rules[..7], row);
  }

  /** Within 5 km of a station the class is 0, whatever the density. */
  lemma ClassNear(row: Row)
    requires row.distance <= 5.0e3
    ensures ClassOf(row) == 0
  {
    ClassOfIsTable(row);
  }

  /** At density 150 or less the class is the distance band. */
  lemma ClassSparse(row: Row)
    requires row.density <= 150.0
    ensures 5.0e3 < row.distance <= 10.0e3 ==> ClassOf(row) == 1
    ensures 10.0e3 < row.distance <= 32.0e3 ==> ClassOf(row) == 2
    ensures 32.0e3 < row.distance ==> ClassOf(row) == 3
  {
    ClassOfIsTable(row);
  }

  /** Beyond 5 km the density band overrides the distance band. */
  lemma ClassDense(row: Row)
    requires row.distance > 5.0e3
    ensures 150.0 < row.density <= 1500.0 ==> ClassOf(row) == 4
    ensures 1500.0 < row.density <= 2500.0 ==> ClassOf(row) == 5
    ensures 2500.0 < row.density <= 4500.0 ==> ClassOf(row) == 6
    ensures 4500.0 < row.density ==> ClassOf(row) == 7
  {
    ClassOfIsTable(row);
  }

  /** Every class is one of 0..7. */
  lemma ClassRange(row: Row)
    ensures 0 <= ClassOf(row) <= 7
  {
    ClassOfIsTable(row);
  }

  /** Lines 216-226: a Series of zeros with the frame's index, overwritten
      rule by rule on the rows each mask selects. One value per row, at the
      row's own position. */
  method GetClass(rows: seq<Row>) returns (classes: seq<int>)
    ensures |classes| == |rows|
    ensures forall i :: 0 <= i < |rows| ==> classes[i] == ClassOf(rows[i])
  {
    var r := new int[|rows|](_ => 0);
    for k := 0 to |Rules|
      invariant forall i :: 0 <= i < |rows| ==> r[i] == ClassBy(Rules[..k], rows[i])
    {
      var rule := Rules[k];
      assert Rules[..k + 1][..k] == Rules[..k];
      for i := 0 to |rows|
        invariant forall j :: 0 <= j < i ==> r[j] == ClassBy(Rules[..k + 1], rows[j])
        invariant forall j :: i <= j < |rows| ==> r[j] == ClassBy(Rules[..k], rows[j])
      {
        if Matches(rule, rows[i]) {
          r[i] := rule.cls;
        }
      }
    }
    assert Rules[..|Rules|] == Rules;
    classes := r[..];
  }

  // ---------------------------------------------------------------------
  // The urban flag

  /** `URBANTYPES`: the city and town classifications counted as urban. */
  const UrbanTypes: set<string> := {
    "Large Town",
    "Large Town in Conurbation",
    "Core City (outside London)",
    "Village or small community in Conurbation",
    "Other City",
    "Small Town in Conurbation",
    "Small Town",
    "Medium Town",
    "Medium Town in Conurbation",
    "Core City (London)",
    "Village or Small Community in Conurbation"
  }

  /** Lines 110-112: 2 for an urban classification, 0 otherwise. */
  function UrbanBase(classification: string): int
  {
    if classification in UrbanTypes then 2 else 0
  }

  /** Lines 120-124: a 0 becomes 1 where the density exceeds 1000. The
      promotion never lowers a flag and leaves any other flag alone, so a
      second promotion changes nothing. */
  function Promote(urban: int, density: real): (r: int)
    ensures r >= urban
    ensures urban != 0 ==> r == urban
    ensures urban == 0 ==> (r == 1 <==> density > 1000.0) && (r == 0 <==> density <= 1000.0)
  {
    if density > 1000.0 && urban == 0 then 1 else urban
  }

  /** The final `urban` flag of an output area: 2 exactly for an urban
      classification; otherwise 1 exactly when the density exceeds 1000 and
      0 when it does not. */
  function Urban(classification: string, density: real): (u: int)
    ensures 0 <= u <= 2
    ensures u == 2 <==> classification in UrbanTypes
    ensures classification !in UrbanTypes ==> (u == 1 <==> density > 1000.0)
  {
    Promote(UrbanBase(classification), density)
  }

  /** Lines 111-112: `urban = 0`, then 2 on the rows whose classification is
      urban. */
  method MarkUrban(classifications: seq<string>) returns (urban: array<int>)
    ensures fresh(urban)
    ensures urban.Length == |classifications|
    ensures forall i :: 0 <= i < urban.Length ==> urban[i] == UrbanBase(classifications[i])
  {
    urban := new int[|classifications|](_ => 0);
    for i := 0 to |classifications|
      invariant forall j :: 0 <= j < i ==> urban[j] == UrbanBase(classifications[j])
      invariant forall j :: i <= j < urban.Length ==> urban[j] == 0
    {
      if classifications[i] in UrbanTypes {
        urban[i] := 2;
      }
    }
  }

  /** Lines 120-124: `urban.loc[(density > 1000) & (urban == 0)] = 1`, in
      place; nothing else in the column changes. */
  method PromoteDense(urban: array<int>, density: seq<real>)
    requires urban.Length == |density|
    modifies urban
    ensures forall i :: 0 <= i < urban.Length ==> urban[i] == Promote(old(urban[i]), density[i])
  {
    for i := 0 to urban.Length
      invariant forall j :: 0 <= j < i ==> urban[j] == Promote(old(urban[j]), density[j])
      invariant forall j :: i <= j < urban.Length ==> urban[j] == old(urban[j])
    {
      if density[i] > 1000.0 && urban[i] == 0 {
        urban[i] := 1;
      }
    }
  }

  // ---------------------------------------------------------------------
  // Town and ShortTown

  /** Lines 55-57: `bua_name`, or `la_name` where `bua_name` is "None". */
  function NameOf(buaName: string, laName: string): string
  {
    if buaName == "None" then laName else buaName
  }

  /** The suffixes removed from a name, in the order they are removed. */
  const Suffixes: seq<string> := [" BUA in Conurbation", " BUASD", " BUA"]

  /** Every suffix in `ks` removed from `s` in turn, each everywhere. */
  function StripAll(s: string, ks: seq<string>): string
    requires forall i :: 0 <= i < |ks| ==> |ks[i]| > 0
  {
    if ks == [] then s else RemoveAll(StripAll(s, ks[..|ks| - 1]), ks[|ks| - 1])
  }

  /** The `Town` of a row. */
  function Town(buaName: string, laName: string): string
  {
    StripAll(NameOf(buaName, laName), Suffixes)
  }

  /** A name is its own `Town` exactly when " BUA" does not occur in it:
      every suffix starts with " BUA", and each removal that finds something
      makes the name shorter. */
  lemma TownUnchangedIff(name: string)
    ensures StripAll(name, Suffixes) == name <==> !Contains(name, " BUA")
  {
    assert Suffixes[..3] == Suffixes && Suffixes[..3][..2] == Suffixes[..2] && Suffixes[..2][..1] == Suffixes[..1] && Suffixes[..1][..0] == [];
    var a := RemoveAll(name, Suffixes[0]);
    var b := RemoveAll(a, Suffixes[1]);
    var c := RemoveAll(b, Suffixes[2]);
    assert StripAll(name, Suffixes[..0]) == name;
    assert StripAll(name, Suffixes[..1]) == a;
    assert StripAll(name, Suffixes[..2]) == b;
    assert StripAll(name, Suffixes) == c;
    RemoveAllUnchangedIff(name, Suffixes[0]);
    RemoveAllUnchangedIff(a, Suffixes[1]);
    RemoveAllUnchangedIff(b, Suffixes[2]);
    if Contains(name, Suffixes[0]) { ContainsPrefix(name, Suffixes[0], " BUA"); }
    if Contains(name, Suffixes[1]) { ContainsPrefix(name, Suffixes[1], " BUA"); }
  }

  /** Lines 58-60: `Town = name`, then the column replaced once per suffix.
      Each row gets the Town of its own names. */
  method DeriveTowns(buaNames: seq<string>, laNames: seq<string>) returns (towns: seq<string>)
    requires |buaNames| == |laNames|
    ensures |towns| == |buaNames|
    ensures forall i :: 0 <= i < |towns| ==> towns[i] == Town(buaNames[i], laNames[i])
  {
    var names := seq(|buaNames|, i requires 0 <= i < |buaNames| => NameOf(buaNames[i], laNames[i]));
    towns := names;
    for k := 0 to |Suffixes|
      invariant |towns| == |names|
      invariant forall i :: 0 <= i < |towns| ==> towns[i] == StripAll(names[i], Suffixes[..k])
    {
      var suffix := Suffixes[k];
      assert Suffixes[..k + 1][..k] == Suffixes[..k];
      towns := Map((t: string) => RemoveAll(t, suffix), towns);
    }
    assert Suffixes[..|Suffixes|] == Suffixes;
  }

  /** Lines 209-213: a Town containing "(" is cut before its first " (";
      any other Town is kept. */
  function ShortTown(town: string): string
  {
    if '(' in town then BeforeFirst(town, " (") else town
  }

  /** `ShortTown` is always the text before the first " (" (a Town with no
      "(" has no " (" either): a prefix of the Town with no " (" starting
      inside it, and the whole Town exactly when " (" does not occur. */
  lemma ShortTownSound(town: string)
    ensures ShortTown(town) == BeforeFirst(town, " (")
    ensures var s := ShortTown(town);
      && |s| <= |town| && s == town[..|s|]
      && (forall i :: 0 <= i < |s| ==> !Occurs(town, " (", i))
      && (s == town <==> !Contains(town, " ("))
  {
    if Contains(town, " (") {
      var i :| Occurs(town, " (", i);
      assert town[i..i + 2] == " (";
      assert town[i + 1] == town[i..i + 2][1];
      var s := BeforeFirst(town, " (");
      assert |s| < |town|;
    }
  }

  // ---------------------------------------------------------------------
  // Stations

  /** The NaPTAN columns the station table uses; `None` is a missing cell. */
  datatype NaptanRow<Geo> = NaptanRow(
    atcoCode: Option<string>,
    commonName: Option<string>,
    localityName: Option<string>,
    parentLocalityName: Option<string>,
    stopType: Option<string>,
    status: Option<string>,
    geometry: Geo)

  /** A row of `ACTIVE`. */
  datatype Station<Geo> = Station(status: string, stopType: string, tiploc: string, crs: string, name: string, geometry: Geo)

  /** `fillna("-")` on one cell. */
  function Filled(cell: Option<string>): string
  {
    if cell.Some? then cell.value else "-"
  }

  /** Line 178: `StopType.isin(["RLY", "MET"])`; a missing stop type is in
      neither. */
  predicate IsRailOrMetro<Geo>(row: NaptanRow<Geo>)
  {
    row.stopType == Some("RLY") || row.stopType == Some("MET")
  }

  /** Line 180: `ATCOCode.str[4:]`, empty for a code shorter than that. */
  function Tiploc(atcoCode: string): string
  {
    if |atcoCode| >= 4 then atcoCode[4..] else ""
  }

  /** Line 181: `CommonName.str.replace(" Rail Station", "")`. */
  function StationName(commonName: string): string
  {
    RemoveAll(commonName, " Rail Station")
  }

  /** Lines 179-192 for one row: missing cells filled with "-", TIPLOC and
      Name derived, CRS looked up by Name, "-" when not found. */
  function Rename<Geo>(crsCodes: map<string, string>, row: NaptanRow<Geo>): Station<Geo>
  {
    var name := StationName(Filled(row.commonName));
    Station(Filled(row.status), Filled(row.stopType), Tiploc(Filled(row.atcoCode)),
            if name in crsCodes then crsCodes[name] else "-", name, row.geometry)
  }

  /** Line 190: `Status == "active"` and `StopType == "RLY"`. */
  predicate IsActiveRail<Geo>(s: Station<Geo>)
  {
    s.status == "active" && s.stopType == "RLY"
  }

  /** The renaming of lines 179-192 as a column function. */
  function RenameWith<Geo>(crsCodes: map<string, string>): NaptanRow<Geo> -> Station<Geo>
  {
    (r: NaptanRow<Geo>) => Rename(crsCodes, r)
  }

  /** Lines 178-192: `ACTIVE`. */
  function ActiveStations<Geo>(rows: seq<NaptanRow<Geo>>, crsCodes: map<string, string>): seq<Station<Geo>>
  {
    Filter(IsActiveRail, Map(RenameWith(crsCodes), Filter(IsRailOrMetro, rows)))
  }

  /** A NaPTAN row that ends up in `ACTIVE`. */
  predicate IsActiveRailRow<Geo>(row: NaptanRow<Geo>)
  {
    row.status == Some("active") && row.stopType == Some("RLY")
  }

  /** `ACTIVE` holds, in NaPTAN order, one renamed station for each row whose
      status is "active" and whose stop type is "RLY", and nothing else: the
      RLY/MET filter and the filled "-" cells never change which rows pass. */
  lemma ActiveStationsDirect<Geo>(rows: seq<NaptanRow<Geo>>, crsCodes: map<string, string>)
    ensures ActiveStations(rows, crsCodes) == Map(RenameWith(crsCodes), Filter(IsActiveRailRow, rows))
  {
    var f := RenameWith(crsCodes);
    var q := (r: NaptanRow<Geo>) => IsActiveRail(f(r));
    FilterMap(IsActiveRail, f, q, Filter(IsRailOrMetro, rows));
    FilterFilter(IsRailOrMetro, q, IsActiveRailRow, rows);
  }

  /** Each station's TIPLOC is its ATCO code from character 4 on, and its
      Name is its common name, left as it is when " Rail Station" does not
      occur in it. */
  lemma StationFields<Geo>(crsCodes: map<string, string>, row: NaptanRow<Geo>)
    ensures var s := Rename(crsCodes, row);
      && (row.atcoCode.Some? && |row.atcoCode.value| >= 4 ==> s.tiploc == row.atcoCode.value[4..])
      && (row.commonName.Some? && !Contains(row.commonName.value, " Rail Station") ==> s.name == row.commonName.value)
      && |s.name| <= |Filled(row.commonName)|
      && (s.name in crsCodes ==> s.crs == crsCodes[s.name])
  {
    RemoveAllUnchangedIff(Filled(row.commonName), " Rail Station");
  }
}

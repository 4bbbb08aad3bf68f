/**
 * `StarWarsPerson`: the display record made from one raw person record. Height and
 * mass become optional numbers, the three colour fields become lists, `birth_year`
 * is renamed, and every other field is carried over.
 */
module Person {
  import opened Wrappers
  import opened Text
  import opened Conversion
  import opened SwapiModel

  datatype StarWarsPerson = StarWarsPerson(
    name: string,
    height: Option<real>,
    mass: Option<real>,
    hairColor: seq<string>,
    skinColor: seq<string>,
    eyeColor: seq<string>,
    birthYear: string,
    passthrough: map<string, string>)

  /** `transformPersonResponse`: total, it never fails. */
  function TransformPersonResponse(response: PersonResponse): (person: StarWarsPerson)
    ensures person.height == ParseFloat(Strip(response.height, ','))
    ensures person.mass == ParseFloat(Strip(response.mass, ','))
    ensures person.hairColor == SplitCommaSeparatedList(response.hair_color)
    ensures person.skinColor == SplitCommaSeparatedList(response.skin_color)
    ensures person.eyeColor == SplitCommaSeparatedList(response.eye_color)
    ensures |person.hairColor| >= 1 && |person.skinColor| >= 1 && |person.eyeColor| >= 1
    ensures Join(person.hairColor, ", ") == response.hair_color
    ensures Join(person.skinColor, ", ") == response.skin_color
    ensures Join(person.eyeColor, ", ") == response.eye_color
    ensures person.birthYear == response.birth_year
    ensures person.name == response.name && person.passthrough == response.passthrough
  {
    SplitCommaSeparatedListRoundTrip(response.hair_color, ", ");
    SplitCommaSeparatedListRoundTrip(response.skin_color, ", ");
    SplitCommaSeparatedListRoundTrip(response.eye_color, ", ");
    StarWarsPerson(
      name := response.name,
      height := ConvertToNumber(response.height),
      mass := ConvertToNumber(response.mass),
      hairColor := SplitCommaSeparatedList(response.hair_color),
      skinColor := SplitCommaSeparatedList(response.skin_color),
      eyeColor := SplitCommaSeparatedList(response.eye_color),
      birthYear := response.birth_year,
      passthrough := response.passthrough)
  }

  /** `results.map(transformPersonResponse)`: one person per record, in order. */
  function TransformAll(results: seq<PersonResponse>): (people: seq<StarWarsPerson>)
    ensures |people| == |results|
    ensures forall i :: 0 <= i < |results| ==> people[i] == TransformPersonResponse(results[i])
  {
    seq(|results|, i requires 0 <= i < |results| => TransformPersonResponse(results[i]))
  }

  /** No item of any of the three colour lists contains ", ". */
  lemma ColorItemsAreSeparated(response: PersonResponse)
    ensures var person := TransformPersonResponse(response);
      && (forall k :: 0 <= k < |person.hairColor| ==> !Includes(person.hairColor[k], ", "))
      && (forall k :: 0 <= k < |person.skinColor| ==> !Includes(person.skinColor[k], ", "))
      && (forall k :: 0 <= k < |person.eyeColor| ==> !Includes(person.eyeColor[k], ", "))
  {
    SplitCommaSeparatedListItems(response.hair_color, ", ");
    SplitCommaSeparatedListItems(response.skin_color, ", ");
    SplitCommaSeparatedListItems(response.eye_color, ", ");
  }

  /** A numeric height and an "unknown" mass. */
  lemma TransformExample(response: PersonResponse)
    requires response.height == "172" && response.mass == "unknown"
    ensures TransformPersonResponse(response).height == Some(172.0)
    ensures TransformPersonResponse(response).mass == None
  {
    ConvertToNumberOfPlainNumber();
    ConvertToNumberOfUnknown();
  }

  /** "blond, grey" becomes the two-item list ["blond", "grey"]. */
  lemma SplitColorExample()
    ensures SplitCommaSeparatedList("blond, grey") == ["blond", "grey"]
  {
    var s, sep := "blond, grey", ", ";
    assert OccursAt(s, sep, 5);
    forall j: nat | j < 5 ensures !OccursAt(s, sep, j) { MismatchAt(s, sep, j); }
    IndexOfAt(s, sep, 5);
    var rest := s[7..];
    assert rest == "grey";
    forall j: nat ensures !OccursAt(rest, sep, j) {
      if j < 3 { MismatchAt(rest, sep, j); }
    }
    IndexOfAbsent(rest, sep);
    SplitStep(s, sep, 5);
    assert s[..5] == "blond";
    assert SplitOn(rest, sep) == ["grey"];
  }
}

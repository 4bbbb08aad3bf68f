/**
 * `StarWarsPersonTable`: one row per person, in data order, and a case-insensitive
 * name filter over those rows. The rows are kept as the element descriptions the
 * component creates; drawing them is not part of this model.
 */
module PersonTable {
  import opened Wrappers
  import opened Sequences
  import opened Text
  import opened Person

  /** The component's own default for `multiplier`. */
  const DefaultMultiplier: real := 1.0

  /** `createElement(StarWarsPersonRow, { key, person, multiplier, unknownText, incalculableText })`. */
  datatype RowElement = RowElement(
    key: nat,
    person: StarWarsPerson,
    multiplier: real,
    unknownText: Option<string>,
    incalculableText: Option<string>)

  /** An item of `allRows`: the name the filter reads, and the row element. */
  datatype NamedRow = NamedRow(name: string, element: RowElement)

  /** The component's props; every one may be left out. */
  datatype TableProps = TableProps(
    data: Option<seq<StarWarsPerson>>,
    filter: Option<string>,
    multiplier: Option<real>,
    nameText: Option<string>,
    heightText: Option<string>,
    massText: Option<string>,
    powerText: Option<string>,
    unknownText: Option<string>,
    incalculableText: Option<string>)

  /** What the component renders: the header cells and the body rows. */
  datatype Table = Table(header: seq<Option<string>>, body: seq<RowElement>)

  /** `allRows`: for each person, its name and its row, keyed by its index. */
  function AllRows(data: seq<StarWarsPerson>, multiplier: real, unknownText: Option<string>,
                   incalculableText: Option<string>): (rows: seq<NamedRow>)
    ensures |rows| == |data|
    ensures forall i :: 0 <= i < |data| ==>
      rows[i].name == data[i].name && rows[i].element.key == i && rows[i].element.person == data[i]
      && rows[i].element.multiplier == multiplier
  {
    seq(|data|, i requires 0 <= i < |data| =>
      NamedRow(data[i].name, RowElement(i, data[i], multiplier, unknownText, incalculableText)))
  }

  /** The filter keeps a name: any name when the filter is absent or empty, else a case-insensitive match. */
  predicate Keeps(filter: Option<string>, name: string) {
    if filter.Some? && |filter.value| > 0 then Includes(ToLower(name), ToLower(filter.value)) else true
  }

  /** `allRows.filter(...)`: the rows whose names the filter keeps, in order. */
  function FilterRows(rows: seq<NamedRow>, filter: Option<string>): (kept: seq<NamedRow>)
    ensures |kept| <= |rows|
  {
    if rows == [] then []
    else (if Keeps(filter, rows[0].name) then [rows[0]] else []) + FilterRows(rows[1..], filter)
  }

  /** `filtered.map(({ element }) => element)`. */
  function Elements(rows: seq<NamedRow>): (elements: seq<RowElement>)
    ensures |elements| == |rows| && forall j :: 0 <= j < |rows| ==> elements[j] == rows[j].element
  {
    seq(|rows|, j requires 0 <= j < |rows| => rows[j].element)
  }

  /** The whole render: nothing at all without data, else the header and the filtered rows. */
  function RenderTable(props: TableProps): (table: Option<Table>)
    ensures table.None? <==> props.data.None?
    ensures table.Some? ==>
      table.value.header == [props.nameText, props.heightText, props.massText, props.powerText]
      && |table.value.body| <= |props.data.value|
  {
    match props.data
    case None => None
    case Some(data) =>
      var allRows := AllRows(data, props.multiplier.GetOr(DefaultMultiplier), props.unknownText, props.incalculableText);
      Some(Table([props.nameText, props.heightText, props.massText, props.powerText],
                 Elements(FilterRows(allRows, props.filter))))
  }

  // ---------------------------------------------------------------------------
  // Properties of the filter

  /** The rows' keys increase from each row to the next. */
  predicate KeysIncrease(rows: seq<NamedRow>) {
    forall j, k :: 0 <= j < k < |rows| ==> rows[j].element.key < rows[k].element.key
  }

  /** A row is kept exactly when it is one of the rows and the filter keeps its name. */
  lemma {:induction false} FilterKeepsIff(rows: seq<NamedRow>, filter: Option<string>)
    ensures forall r :: r in FilterRows(rows, filter) <==> r in rows && Keeps(filter, r.name)
  {
    if rows != [] {
      FilterKeepsIff(rows[1..], filter);
      assert rows == [rows[0]] + rows[1..];
    }
  }

  lemma KeysIncreaseTail(rows: seq<NamedRow>)
    requires rows != [] && KeysIncrease(rows)
    ensures KeysIncrease(rows[1..])
    ensures forall r :: r in rows[1..] ==> rows[0].element.key < r.element.key
  {
    forall r | r in rows[1..] ensures rows[0].element.key < r.element.key {
      var k :| 0 <= k < |rows[1..]| && rows[1..][k] == r;
      assert rows[k + 1] == r;
    }
  }

  lemma KeysIncreaseCons(head: seq<NamedRow>, rest: seq<NamedRow>, key: nat)
    requires |head| <= 1 && (head != [] ==> head[0].element.key == key)
    requires KeysIncrease(rest) && forall r :: r in rest ==> key < r.element.key
    ensures KeysIncrease(head + rest)
  {
    forall j, k | 0 <= j < k < |head + rest|
      ensures (head + rest)[j].element.key < (head + rest)[k].element.key
    {
      if head != [] && j == 0 {
        assert (head + rest)[k] == rest[k - 1];
      }
    }
  }

  /** Filtering keeps the order of the rows it keeps. */
  lemma {:induction false} FilterKeepsOrder(rows: seq<NamedRow>, filter: Option<string>)
    requires KeysIncrease(rows)
    ensures KeysIncrease(FilterRows(rows, filter))
  {
    if rows != [] {
      KeysIncreaseTail(rows);
      FilterKeepsOrder(rows[1..], filter);
      FilterKeepsIff(rows[1..], filter);
      KeysIncreaseCons(if Keeps(filter, rows[0].name) then [rows[0]] else [], FilterRows(rows[1..], filter), rows[0].element.key);
    }
  }

  /** An absent or empty filter keeps every row. */
  lemma {:induction false} NoFilterKeepsAll(rows: seq<NamedRow>, filter: Option<string>)
    requires filter.None? || filter.value == ""
    ensures FilterRows(rows, filter) == rows
  {
    if rows != [] {
      NoFilterKeepsAll(rows[1..], filter);
      assert [rows[0]] + rows[1..] == rows;
    }
  }

  /** Filtering a concatenation filters each part. */
  lemma {:induction false} FilterAppend(rows: seq<NamedRow>, rows': seq<NamedRow>, filter: Option<string>)
    ensures FilterRows(rows + rows', filter) == FilterRows(rows, filter) + FilterRows(rows', filter)
  {
    if rows == [] {
      assert rows + rows' == rows';
    } else {
      var r, tail := rows[0], rows[1..];
      var head := if Keeps(filter, r.name) then [r] else [];
      assert rows == [r] + tail && rows + rows' == [r] + (tail + rows');
      FilterCons(r, tail + rows', filter);
      FilterCons(r, tail, filter);
      FilterAppend(tail, rows', filter);
      AppendAssoc(head, FilterRows(tail, filter), FilterRows(rows', filter));
    }
  }

  lemma FilterCons(r: NamedRow, rows: seq<NamedRow>, filter: Option<string>)
    ensures FilterRows([r] + rows, filter) == (if Keeps(filter, r.name) then [r] else []) + FilterRows(rows, filter)
  {
    assert ([r] + rows)[0] == r && ([r] + rows)[1..] == rows;
  }

  /** The rows of a rendered table, before their names are dropped. */
  lemma RenderTableBody(props: TableProps)
    requires props.data.Some?
    ensures var allRows := AllRows(props.data.value, props.multiplier.GetOr(DefaultMultiplier), props.unknownText, props.incalculableText);
      RenderTable(props).value.body == Elements(FilterRows(allRows, props.filter))
  {
  }

  /**
   * Each row of a rendered table is the row of a person whose name the filter keeps,
   * with the multiplier given or 1.
   */
  lemma RenderTableRowsKept(props: TableProps)
    requires props.data.Some?
    ensures var data, body := props.data.value, RenderTable(props).value.body;
      forall j :: 0 <= j < |body| ==>
        body[j].key < |data| && body[j].person == data[body[j].key]
        && Keeps(props.filter, data[body[j].key].name)
        && body[j].multiplier == props.multiplier.GetOr(1.0)
  {
    var data := props.data.value;
    var allRows := AllRows(data, props.multiplier.GetOr(DefaultMultiplier), props.unknownText, props.incalculableText);
    var kept := FilterRows(allRows, props.filter);
    var body := Elements(kept);
    RenderTableBody(props);
    FilterKeepsIff(allRows, props.filter);
    forall j | 0 <= j < |body|
      ensures body[j].key < |data| && body[j].person == data[body[j].key]
      ensures Keeps(props.filter, data[body[j].key].name)
      ensures body[j].multiplier == props.multiplier.GetOr(1.0)
    {
      assert kept[j] in allRows;
      var i :| 0 <= i < |allRows| && allRows[i] == kept[j];
      assert body[j] == allRows[i].element;
    }
  }

  /** The rows of a rendered table follow the data order. */
  lemma RenderTableRowsInOrder(props: TableProps)
    requires props.data.Some?
    ensures var body := RenderTable(props).value.body;
      forall j, k :: 0 <= j < k < |body| ==> body[j].key < body[k].key
  {
    var allRows := AllRows(props.data.value, props.multiplier.GetOr(DefaultMultiplier), props.unknownText, props.incalculableText);
    RenderTableBody(props);
    FilterKeepsOrder(allRows, props.filter);
  }

  /** Every person whose name the filter keeps has a row in the rendered table. */
  lemma RenderTableRowsComplete(props: TableProps)
    requires props.data.Some?
    ensures var data, body := props.data.value, RenderTable(props).value.body;
      forall i :: 0 <= i < |data| && Keeps(props.filter, data[i].name) ==>
        exists j :: 0 <= j < |body| && body[j].key == i
  {
    var data := props.data.value;
    var allRows := AllRows(data, props.multiplier.GetOr(DefaultMultiplier), props.unknownText, props.incalculableText);
    var kept := FilterRows(allRows, props.filter);
    var body := Elements(kept);
    RenderTableBody(props);
    FilterKeepsIff(allRows, props.filter);
    forall i | 0 <= i < |data| && Keeps(props.filter, data[i].name)
      ensures exists j :: 0 <= j < |body| && body[j].key == i
    {
      assert allRows[i] in kept;
      var j :| 0 <= j < |kept| && kept[j] == allRows[i];
      assert body[j].key == i;
    }
  }

  /** With no filter the body is every person's row, in data order. */
  lemma RenderTableUnfiltered(props: TableProps)
    requires props.data.Some? && (props.filter.None? || props.filter.value == "")
    ensures var data, body := props.data.value, RenderTable(props).value.body;
      |body| == |data| && forall i :: 0 <= i < |data| ==> body[i].key == i && body[i].person == data[i]
  {
    var allRows := AllRows(props.data.value, props.multiplier.GetOr(DefaultMultiplier), props.unknownText, props.incalculableText);
    NoFilterKeepsAll(allRows, props.filter);
  }

  /** The filter ignores case: "LUKE" keeps "Luke Skywalker". */
  lemma FilterIgnoresCase()
    ensures Keeps(Some("LUKE"), "Luke Skywalker")
  {
    var name := ToLower("Luke Skywalker");
    assert name == "luke skywalker";
    assert ToLower("LUKE") == "luke";
    assert OccursAt(name, "luke", 0);
    IndexOfIsFirst(name, "luke");
  }
}

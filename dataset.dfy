/** The dataset store that the importer fills and the provider serves.

    `DataSet` and `Column` are declared in headers that are not part of this
    model, so this module keeps only what the bridge relies on: an ordered
    sequence of columns (each with a name, a type, levels and row-aligned
    display strings) and the dataset's row count. What the store itself decides
    (classification, level order, numeric conversion) is handed in as a
    `Classifier` function rather than guessed. */
module DataSetModel {
  import opened Options
  import opened Decimal

  datatype ColumnType = Unknown | Nominal | Ordinal | Scale

  /** What the store derives from a column's strings when it is initialised. */
  datatype Classification = Classification(
    colType: ColumnType,
    levels: seq<string>,
    doubles: seq<real>,
    numericCount: nat)

  /** The store's classification policy: strings, requested type, threshold,
      orderLabelsByValue. */
  type Classifier = (seq<string>, ColumnType, int, bool) -> Classification

  datatype Column = Column(
    name: string,
    colType: ColumnType,
    levels: seq<string>,
    values: seq<string>,
    doubles: seq<real>,
    numericCount: nat)

  /** A column as `setColumnCount` allocates it, before it is initialised. */
  const BlankColumn := Column("", Unknown, [], [], [], 0)

  /** The column `initColumnWithStrings` builds from one column's strings. */
  function ColumnFromStrings(name: string, values: seq<string>, colType: ColumnType,
                             threshold: int, orderLabelsByValue: bool,
                             classify: Classifier): (c: Column)
    ensures c.name == name && c.values == values
  {
    var k := classify(values, colType, threshold, orderLabelsByValue);
    Column(name, k.colType, k.levels, values, k.doubles, k.numericCount)
  }

  /** The text a row shows (`getDisplay`, `getValue`): the stored string, or ""
      for a row the column does not hold. */
  function Display(c: Column, row: int): (s: string)
    ensures 0 <= row < |c.values| ==> s == c.values[row]
    ensures !(0 <= row < |c.values|) ==> s == ""
  {
    if 0 <= row < |c.values| then c.values[row] else ""
  }

  /** Position of the first column called `name`, as `DataSet::column(name)` finds it. */
  function IndexOfName(columns: seq<Column>, name: string): (r: Option<nat>)
    ensures r.Some? ==> r.value < |columns| && columns[r.value].name == name
    ensures r.Some? ==> forall j :: 0 <= j < r.value ==> columns[j].name != name
    ensures r.None? ==> forall j :: 0 <= j < |columns| ==> columns[j].name != name
  {
    if columns == [] then None
    else if columns[0].name == name then Some(0)
    else match IndexOfName(columns[1..], name)
      case None => None
      case Some(k) => Some(k + 1)
  }

  class DataSet {
    var columns: seq<Column>
    var rowCount: nat

    constructor ()
      ensures columns == [] && rowCount == 0
    {
      columns := [];
      rowCount := 0;
    }

    /** `column(index)`: the column at `index`, or none when there is no such column. */
    function ColumnAt(index: int): (r: Option<Column>)
      reads this
      ensures r.Some? <==> 0 <= index < |columns|
      ensures r.Some? ==> r.value == columns[index]
    {
      if 0 <= index < |columns| then Some(columns[index]) else None
    }

    /** `column(name)`: the first column called `name`. */
    function ColumnIndex(name: string): (r: Option<nat>)
      reads this
      ensures r.Some? ==> r.value < |columns| && columns[r.value].name == name
      ensures r.None? ==> forall j :: 0 <= j < |columns| ==> columns[j].name != name
    {
      IndexOfName(columns, name)
    }

    /** Resizes the column sequence; columns kept from before are left as they
        are and new ones are blank. */
    method SetColumnCount(n: nat)
      modifies this
      ensures |columns| == n && rowCount == old(rowCount)
      ensures forall i :: 0 <= i < n && i < |old(columns)| ==> columns[i] == old(columns)[i]
    {
      var before := columns;
      columns := seq(n, i requires 0 <= i < n => if i < |before| then before[i] else BlankColumn);
    }

    /** Sets the row count; the columns' stored strings are left as they are. */
    method SetRowCount(n: nat)
      modifies this
      ensures rowCount == n && columns == old(columns)
    {
      rowCount := n;
    }

    /** Replaces column `colNr` with the column built from `values`. */
    method InitColumnWithStrings(colNr: nat, name: string, values: seq<string>,
                                 colType: ColumnType, threshold: int,
                                 orderLabelsByValue: bool, classify: Classifier)
      requires colNr < |columns|
      modifies this
      ensures rowCount == old(rowCount)
      ensures columns == old(columns)[colNr := ColumnFromStrings(name, values, colType, threshold, orderLabelsByValue, classify)]
    {
      columns := columns[colNr := ColumnFromStrings(name, values, colType, threshold, orderLabelsByValue, classify)];
    }

    /** Stores `value` in row `row` of column `colIdx` when the column holds that
        row; reports whether the stored string changed. */
    method SetStringValue(colIdx: nat, row: int, value: string) returns (changed: bool)
      requires colIdx < |columns|
      modifies this
      ensures rowCount == old(rowCount)
      ensures var c := old(columns)[colIdx];
        if 0 <= row < |c.values| then
          columns == old(columns)[colIdx := c.(values := c.values[row := value])] && changed == (c.values[row] != value)
        else
          columns == old(columns) && !changed
    {
      var c := columns[colIdx];
      if 0 <= row < |c.values| {
        changed := c.values[row] != value;
        columns := columns[colIdx := c.(values := c.values[row := value])];
      } else {
        changed := false;
      }
    }
  }
}

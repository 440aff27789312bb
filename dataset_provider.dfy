/** The provider that owns the session's dataset, shows it to QML as a table
    whose rows are the dataset's columns, answers typed information queries
    about a column and writes values back into a column. */
module DataSetProvider {
  import opened Options
  import opened Decimal
  import opened DataSetModel

  /** `Qt::DisplayRole`. */
  const DisplayRole: int := 0

  /** The kinds of information a `VariableInfo` query can ask for. */
  datatype InfoType =
    | VariableType | DoubleValues | TotalNumericValues | TotalLevels | Labels
    | NameRole | DataSetRowCount | DataSetValue | DataSetValues | MaxWidth
    | SignalsBlocked | VariableNames | DataAvailable | PreviewScale
    | PreviewOrdinal | PreviewNominal | DataSetPointer
    | OtherInfo(code: int)

  /** The `QVariant` values the provider hands out or takes in. */
  datatype Variant =
    | Invalid
    | IntV(i: int)
    | BoolV(b: bool)
    | StringV(s: string)
    | StringListV(strs: seq<string>)
    | ListV(items: seq<Variant>)
    | DoubleV(d: real)
    | ColumnTypeV(t: ColumnType)
    | PointerV(ds: DataSet)

  /** `QVariant::toString`, which is not part of this model. */
  type TextConversion = Variant -> string

  /** `QVariant::toList`: a list as is, a string list element by element, and
      nothing for any other value. */
  function ToList(v: Variant): (r: seq<Variant>)
    ensures v.ListV? ==> r == v.items
    ensures v.StringListV? ==> |r| == |v.strs| && forall i :: 0 <= i < |r| ==> r[i] == StringV(v.strs[i])
    ensures !v.ListV? && !v.StringListV? ==> r == []
  {
    match v
    case ListV(items) => items
    case StringListV(ss) => seq(|ss|, i requires 0 <= i < |ss| => StringV(ss[i]))
    case _ => []
  }

  /** The text of every element of a list. */
  function Texts(items: seq<Variant>, toText: TextConversion): (r: seq<string>)
    ensures |r| == |items| && forall i :: 0 <= i < |r| ==> r[i] == toText(items[i])
  {
    seq(|items|, i requires 0 <= i < |items| => toText(items[i]))
  }

  // ---------------------------------------------------------------------
  // Reference definitions of the lists the provider builds
  // ---------------------------------------------------------------------

  /** `_getStringList`: one entry per dataset row, each the row's display text. */
  function DisplayList(column: Option<Column>, rows: nat): (r: seq<Variant>)
    ensures column.None? ==> r == []
    ensures column.Some? ==> |r| == rows && forall k :: 0 <= k < rows ==> r[k] == StringV(Display(column.value, k))
  {
    if column.None? then [] else seq(rows, k requires 0 <= k < rows => StringV(Display(column.value, k)))
  }

  /** `_getDoubleList`: the column's numbers, in order. */
  function DoubleList(column: Option<Column>): (r: seq<Variant>)
    ensures column.None? ==> r == []
    ensures column.Some? ==> |r| == |column.value.doubles|
    ensures column.Some? ==> forall k :: 0 <= k < |r| ==> r[k] == DoubleV(column.value.doubles[k])
  {
    if column.None? then []
    else seq(|column.value.doubles|, k requires 0 <= k < |column.value.doubles| => DoubleV(column.value.doubles[k]))
  }

  /** `_getColumnNames`: the column names in dataset order. */
  function NamesOf(columns: seq<Column>): (r: seq<string>)
    ensures |r| == |columns| && forall i :: 0 <= i < |r| ==> r[i] == columns[i].name
  {
    seq(|columns|, i requires 0 <= i < |columns| => columns[i].name)
  }

  /** The rows of `values` after `absorbInfo(DataSetValues, …, row, …)` with list
      texts `items`: item `i` lands on row `row + i` when that row is below
      `rowCount` (and the column holds it); every other row keeps its text. */
  function Absorbed(values: seq<string>, row: int, items: seq<string>, rowCount: nat): (r: seq<string>)
    ensures |r| == |values|
    ensures forall j :: 0 <= j < |values| ==>
      r[j] == if row <= j < row + |items| && j < rowCount then items[j - row] else values[j]
  {
    seq(|values|, j requires 0 <= j < |values| =>
      if row <= j < row + |items| && j < rowCount then items[j - row] else values[j])
  }

  /** Nothing at or beyond `rowCount`, and nothing outside `row .. row + |items|`, is written. */
  lemma AbsorbedWritesOnlyBelowRowCount(values: seq<string>, row: int, items: seq<string>, rowCount: nat, j: nat)
    requires j < |values|
    requires j >= rowCount || j < row || j >= row + |items|
    ensures Absorbed(values, row, items, rowCount)[j] == values[j]
  {
  }

  /** Writing one more item extends the write by at most that item's row. */
  lemma AbsorbedStep(values: seq<string>, row: int, items: seq<string>, rowCount: nat, i: nat)
    requires i < |items|
    ensures var before := Absorbed(values, row, items[..i], rowCount);
      Absorbed(values, row, items[..i + 1], rowCount) ==
        if row + i < rowCount && 0 <= row + i < |values| then before[row + i := items[i]] else before
  {
    var before := Absorbed(values, row, items[..i], rowCount);
    var after := Absorbed(values, row, items[..i + 1], rowCount);
    if row + i < rowCount && 0 <= row + i < |values| {
      assert after == before[row + i := items[i]];
    } else {
      assert after == before;
    }
  }

  // ---------------------------------------------------------------------
  // data(): the table view, as written and as intended
  // ---------------------------------------------------------------------

  /** `data(index, role)` as written: the index is checked against the table's
      column count, which is the dataset's ROW count. */
  function DataAsWritten(columns: seq<Column>, rowCount: nat, row: int, role: int): (v: Variant)
    ensures role != DisplayRole ==> v == Invalid
    ensures row > rowCount || !(0 <= row < |columns|) ==> v == Invalid
    ensures role == DisplayRole && 0 <= row < |columns| && row <= rowCount ==> v == StringV(columns[row].name)
  {
    var column := if row > rowCount then None else if 0 <= row < |columns| then Some(columns[row]) else None;
    if column.None? then Invalid else if role == DisplayRole then StringV(column.value.name) else Invalid
  }

  /** A dataset with three columns and one row: the third column's name is not
      shown, although the table has a row for it. */
  lemma DataAsWrittenHidesWideColumns(c0: Column, c1: Column, c2: Column)
    ensures var columns := [c0, c1, c2];
      2 < |columns| && DataAsWritten(columns, 1, 2, DisplayRole) == Invalid &&
      DataCorrected(columns, 2, DisplayRole) == StringV(c2.name)
  {
  }

  /** `data(index, role)` with the index checked against the table's row count:
      the name of the column the table row stands for, for the display role only. */
  function DataCorrected(columns: seq<Column>, row: int, role: int): (v: Variant)
    ensures role != DisplayRole ==> v == Invalid
    ensures role == DisplayRole && 0 <= row < |columns| ==> v == StringV(columns[row].name)
    ensures !(0 <= row < |columns|) ==> v == Invalid
  {
    var column := if 0 <= row < |columns| then Some(columns[row]) else None;
    if column.None? then Invalid else if role == DisplayRole then StringV(column.value.name) else Invalid
  }

  /** The two agree whenever the index does not exceed the dataset's row count. */
  lemma DataAgreesWithinRowCount(columns: seq<Column>, rowCount: nat, row: int, role: int)
    requires row <= rowCount
    ensures DataAsWritten(columns, rowCount, row, role) == DataCorrected(columns, row, role)
  {
  }

  // ---------------------------------------------------------------------
  // The provider
  // ---------------------------------------------------------------------

  class DataSetProvider {
    const inMemory: bool
    var dataset: DataSet

    constructor (inMemory: bool)
      ensures this.inMemory == inMemory
      ensures fresh(dataset) && dataset.columns == [] && dataset.rowCount == 0
    {
      this.inMemory := inMemory;
      dataset := new DataSet();
    }

    /** Replaces the dataset with a fresh, empty one. */
    method ResetDataSet()
      modifies this
      ensures fresh(dataset) && dataset.columns == [] && dataset.rowCount == 0
    {
      dataset := new DataSet();
    }

    /** The table has one row per dataset column. */
    function RowCount(): (n: nat)
      reads this, dataset
      ensures n == |dataset.columns|
    {
      |dataset.columns|
    }

    /** The table has one column per dataset row. */
    function ColumnCount(): (n: nat)
      reads this, dataset
      ensures n == dataset.rowCount
    {
      dataset.rowCount
    }

    /** `data(index, role)`: the name of the column table row `row` stands for,
        for the display role only. As written, the row is also checked against
        `ColumnCount()` (the dataset's row count), so a table row beyond that
        count shows nothing even when its column exists. */
    function Data(row: int, role: int): (v: Variant)
      reads this, dataset
      ensures role != DisplayRole ==> v == Invalid
      ensures row > ColumnCount() || !(0 <= row < RowCount()) ==> v == Invalid
      ensures role == DisplayRole && 0 <= row < RowCount() && row <= ColumnCount() ==>
        v == StringV(dataset.columns[row].name)
      ensures row <= ColumnCount() ==> v == DataCorrected(dataset.columns, row, role)
    {
      DataAsWritten(dataset.columns, dataset.rowCount, row, role)
    }

    /** The column `colName` names, if any. */
    function ColumnNamed(colName: string): (r: Option<Column>)
      reads this, dataset
      ensures r.Some? ==> r.value in dataset.columns && r.value.name == colName
      ensures r.None? ==> forall j :: 0 <= j < |dataset.columns| ==> dataset.columns[j].name != colName
    {
      match dataset.ColumnIndex(colName)
      case Some(i) => Some(dataset.columns[i])
      case None => None
    }

    /** `provideInfo`: the answer to one information query about column `colName`. */
    function ProvideInfo(info: InfoType, colName: string, row: int): (v: Variant)
      reads this, dataset
      // answers for a column that does not exist
      ensures ColumnNamed(colName).None? ==>
        (info == VariableType ==> v == ColumnTypeV(Unknown)) &&
        (info == DoubleValues ==> v == ListV([])) &&
        (info == TotalNumericValues ==> v == IntV(0)) &&
        (info == TotalLevels ==> v == IntV(0)) &&
        (info == Labels ==> v == StringListV([])) &&
        (info == DataSetValue ==> v == StringV("")) &&
        (info == DataSetValues ==> v == ListV([]))
      // answers about an existing column
      ensures ColumnNamed(colName).Some? ==> var c := ColumnNamed(colName).value;
        (info == VariableType ==> v == ColumnTypeV(c.colType)) &&
        (info == TotalNumericValues ==> v == IntV(c.numericCount)) &&
        (info == DoubleValues ==> v.ListV? && |v.items| == |c.doubles|) &&
        (info == TotalLevels ==> v == IntV(|c.levels|)) &&
        (info == Labels ==> v == StringListV(c.levels)) &&
        (info == DataSetValue ==> v == StringV(Display(c, row))) &&
        (info == DataSetValues ==>
          v.ListV? && |v.items| == dataset.rowCount &&
          forall r :: 0 <= r < dataset.rowCount ==> v.items[r] == StringV(Display(c, r)))
      // answers that do not depend on the column
      ensures info == DataAvailable ==> v == BoolV(|dataset.columns| > 0)
      ensures info == MaxWidth ==> v == IntV(100)
      ensures info == SignalsBlocked ==> v == BoolV(false)
      ensures info == NameRole ==> v == IntV(DisplayRole)
      ensures info == DataSetRowCount ==> v == IntV(dataset.rowCount)
      ensures info == VariableNames ==> v == StringListV(NamesOf(dataset.columns))
      ensures info.OtherInfo? || info in {PreviewScale, PreviewOrdinal, PreviewNominal} ==> v == StringV("")
    {
      var column := ColumnNamed(colName);
      match info
      case VariableType => ColumnTypeV(if column.None? then Unknown else column.value.colType)
      case DoubleValues => ListV(DoubleList(column))
      case TotalNumericValues => IntV(if column.None? then 0 else column.value.numericCount)
      case TotalLevels => IntV(if column.None? then 0 else |column.value.levels|)
      case Labels => StringListV(if column.None? then [] else column.value.levels)
      case NameRole => IntV(DisplayRole)
      case DataSetRowCount => IntV(dataset.rowCount)
      case DataSetValue => StringV(if column.None? then "" else Display(column.value, row))
      case DataSetValues => ListV(DisplayList(column, dataset.rowCount))
      case MaxWidth => IntV(100)
      case SignalsBlocked => BoolV(false)
      case VariableNames => StringListV(NamesOf(dataset.columns))
      case DataAvailable => BoolV(|dataset.columns| > 0)
      case PreviewScale => StringV("")
      case PreviewOrdinal => StringV("")
      case PreviewNominal => StringV("")
      case DataSetPointer => PointerV(dataset)
      case OtherInfo(_) => StringV("")
    }

    /** `_getDoubleList`. */
    method GetDoubleList(column: Option<Column>) returns (list: seq<Variant>)
      ensures list == DoubleList(column)
    {
      list := [];
      if column.None? {
        return;
      }
      var dbls := column.value.doubles;
      for k := 0 to |dbls|
        invariant |list| == k
        invariant forall j :: 0 <= j < k ==> list[j] == DoubleV(dbls[j])
      {
        list := list + [DoubleV(dbls[k])];
      }
    }

    /** `_getStringList`: one display text per dataset row. */
    method GetStringList(column: Option<Column>) returns (list: seq<Variant>)
      ensures list == DisplayList(column, dataset.rowCount)
    {
      list := [];
      if column.None? {
        return;
      }
      var rows := dataset.rowCount;
      for r := 0 to rows
        invariant |list| == r
        invariant forall j :: 0 <= j < r ==> list[j] == StringV(Display(column.value, j))
      {
        list := list + [StringV(Display(column.value, r))];
      }
    }

    /** `_getColumnNames`: the names of the dataset's columns, in order. */
    method GetColumnNames() returns (result: seq<string>)
      ensures result == NamesOf(dataset.columns)
    {
      result := [];
      var cols := |dataset.columns|;
      for i := 0 to cols
        invariant |result| == i
        invariant forall j :: 0 <= j < i ==> result[j] == dataset.columns[j].name
      {
        var column := dataset.ColumnAt(i);
        result := result + [column.value.name];
      }
    }

    /** `absorbInfo`: writes a value, or a list of values starting at `row`,
        into column `colName`. */
    method AbsorbInfo(info: InfoType, colName: string, row: int, value: Variant, toText: TextConversion)
      returns (ok: bool)
      modifies dataset
      ensures dataset.rowCount == old(dataset.rowCount)
      ensures old(dataset.ColumnIndex(colName)).None? || !(info in {DataSetValue, DataSetValues}) ==>
        !ok && dataset.columns == old(dataset.columns)
      ensures old(dataset.ColumnIndex(colName)).Some? && info == DataSetValue ==>
        var i := old(dataset.ColumnIndex(colName)).value;
        var c := old(dataset.columns)[i];
        if 0 <= row < |c.values| then
          dataset.columns == old(dataset.columns)[i := c.(values := c.values[row := toText(value)])] &&
          ok == (c.values[row] != toText(value))
        else
          dataset.columns == old(dataset.columns) && !ok
      ensures old(dataset.ColumnIndex(colName)).Some? && info == DataSetValues ==>
        var i := old(dataset.ColumnIndex(colName)).value;
        var c := old(dataset.columns)[i];
        ok &&
        dataset.columns == old(dataset.columns)[i := c.(values := Absorbed(c.values, row, Texts(ToList(value), toText), dataset.rowCount))]
    {
      var index := dataset.ColumnIndex(colName);
      if index.None? {
        return false;
      }
      var i := index.value;
      match info {
        case DataSetValue =>
          ok := dataset.SetStringValue(i, row, toText(value));
        case DataSetValues =>
          AbsorbList(i, row, ToList(value), toText);
          ok := true;
        case _ =>
          ok := false;
      }
    }

    /** The `DataSetValues` branch of `absorbInfo`: writes `list` into column `i`
        from `row` on, stopping at the dataset's row count. */
    method AbsorbList(i: nat, row: int, list: seq<Variant>, toText: TextConversion)
      requires i < |dataset.columns|
      modifies dataset
      ensures dataset.rowCount == old(dataset.rowCount)
      ensures var c := old(dataset.columns)[i];
        dataset.columns == old(dataset.columns)[i := c.(values := Absorbed(c.values, row, Texts(list, toText), dataset.rowCount))]
    {
      ghost var cols := dataset.columns;
      ghost var c := cols[i];
      ghost var texts := Texts(list, toText);
      var r := 0;
      assert Absorbed(c.values, row, texts[..0], dataset.rowCount) == c.values;
      for k := 0 to |list|
        invariant dataset.rowCount == old(dataset.rowCount)
        invariant r == if row >= dataset.rowCount then 0 else if k <= dataset.rowCount - row then k else dataset.rowCount - row
        invariant |dataset.columns| == |cols|
        invariant forall j :: 0 <= j < |cols| && j != i ==> dataset.columns[j] == cols[j]
        invariant dataset.columns[i] == c.(values := Absorbed(c.values, row, texts[..k], dataset.rowCount))
      {
        AbsorbedStep(c.values, row, texts, dataset.rowCount, k);
        if row + r < dataset.rowCount {
          assert r == k && texts[k] == toText(list[k]);
          var _ := dataset.SetStringValue(i, row + r, toText(list[k]));
          r := r + 1;
        }
      }
      assert texts[..|list|] == texts;
      assert dataset.columns == cols[i := c.(values := Absorbed(c.values, row, texts, dataset.rowCount))];
    }
  }

  /** The process-wide `_singleton` slot of `DataSetProvider`. */
  class ProviderRegistry {
    var singleton: DataSetProvider?

    constructor ()
      ensures singleton == null
    {
      singleton := null;
    }

    /** `getProvider`: creates the provider on first use; afterwards returns the
        same one, giving it a fresh empty dataset only when `reset` is set. */
    method GetProvider(inMemory: bool, reset: bool) returns (p: DataSetProvider)
      modifies this, singleton
      ensures singleton == p
      ensures old(singleton) == null ==>
        fresh(p) && p.inMemory == inMemory && fresh(p.dataset) && p.dataset.columns == [] && p.dataset.rowCount == 0
      ensures old(singleton) != null ==> p == old(singleton)
      ensures old(singleton) != null && reset ==>
        fresh(p.dataset) && p.dataset.columns == [] && p.dataset.rowCount == 0
      ensures old(singleton) != null && !reset ==> p.dataset == old(singleton.dataset)
    {
      if singleton == null {
        p := new DataSetProvider(inMemory);
        singleton := p;
      } else {
        p := singleton;
        if reset {
          p.ResetDataSet();
        }
      }
    }
  }
}

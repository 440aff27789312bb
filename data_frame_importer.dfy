/** Import of an R data frame into the dataset store: every element of a column
    of a type the importer reads becomes a display string, a column of any other
    type becomes as many blanks as the longest column before it, and each column
    is handed to the store. */
module DataFrameImporter {
  import opened Options
  import opened Decimal
  import opened DataSetModel

  /** R's 32-bit integer storage, used for integer and logical vectors. */
  newtype Int32 = x: int | -0x8000_0000 <= x < 0x8000_0000

  /** R marks a missing integer, and a missing logical, with INT_MIN. */
  const NA_INTEGER: Int32 := -0x8000_0000
  const NA_LOGICAL: Int32 := NA_INTEGER

  /** An element of a character vector: the NA_STRING marker or a string. */
  datatype RString = NAString | Chars(s: string)

  /** An element of a numeric vector, by the IEEE class R's tests tell apart. */
  datatype RDouble = RealNA | RealNaN | PosInf | NegInf | Finite(x: real)

  /** `ColumnUtils::doubleToString`, which is not part of this model. */
  type DoubleFormatter = real -> string

  /** One column of the frame, by the storage type R gives it. */
  datatype RVector =
    | NumericVector(reals: seq<RDouble>)
    | IntegerVector(ints: seq<Int32>)
    | LogicalVector(lgls: seq<Int32>)
    | CharacterVector(strs: seq<RString>)
    | OtherVector(typeName: string, length: nat)

  function Size(v: RVector): nat {
    match v
    case NumericVector(xs) => |xs|
    case IntegerVector(xs) => |xs|
    case LogicalVector(xs) => |xs|
    case CharacterVector(xs) => |xs|
    case OtherVector(_, n) => n
  }

  // ---------------------------------------------------------------------
  // Per-element formatting (RVectorEntry_to_String)
  // ---------------------------------------------------------------------

  /** An integer formats as "" exactly when it is NA, and otherwise as decimal
      text that reads back as the same integer. */
  function FormatInteger(x: Int32): (s: string)
    ensures s == "" <==> x == NA_INTEGER
    ensures x != NA_INTEGER ==> ParseDecimal(s) == Some(x as int)
  {
    if x == NA_INTEGER then ""
    else
      IntToDecimalParses(x as int);
      IntToDecimal(x as int)
  }

  /** A logical formats as "" when NA, "1" when true (any non-zero value) and
      "0" when false. */
  function FormatLogical(x: Int32): (s: string)
    ensures s == "" <==> x == NA_LOGICAL
    ensures s == "1" <==> x != NA_LOGICAL && x != 0
    ensures s == "0" <==> x == 0
    ensures s in {"", "1", "0"}
  {
    if x == NA_LOGICAL then "" else if x != 0 then "1" else "0"
  }

  /** A character element formats as "" when NA and as its text verbatim otherwise. */
  function FormatString(x: RString): (s: string)
    ensures x.NAString? ==> s == ""
    ensures x.Chars? ==> s == x.s
  {
    match x
    case NAString => ""
    case Chars(t) => t
  }

  /** A real element: NA, then NaN, then +Inf, then -Inf, then the formatter. */
  function FormatReal(x: RDouble, doubleToString: DoubleFormatter): (s: string)
    ensures x == RealNA ==> s == ""
    ensures x == RealNaN ==> s == "NaN"
    ensures x == PosInf ==> s == "∞"
    ensures x == NegInf ==> s == "-∞"
    ensures x.Finite? ==> s == doubleToString(x.x)
  {
    match x
    case RealNA => ""
    case RealNaN => "NaN"
    case PosInf => "∞"
    case NegInf => "-∞"
    case Finite(v) => doubleToString(v)
  }

  /** The template dispatch: row `row` of `obj`, formatted by its element type;
      the unspecialised template gives "". */
  function EntryToString(obj: RVector, row: nat, doubleToString: DoubleFormatter): (s: string)
    requires row < Size(obj)
    ensures obj.OtherVector? ==> s == ""
    ensures obj.IntegerVector? ==> (s == "" <==> obj.ints[row] == NA_INTEGER)
    ensures obj.LogicalVector? ==> s in {"", "1", "0"} && (s == "" <==> obj.lgls[row] == NA_LOGICAL)
    ensures obj.CharacterVector? ==> (s == "" <==> obj.strs[row] == NAString || obj.strs[row] == Chars(""))
    ensures obj.IntegerVector? && obj.ints[row] != NA_INTEGER ==> ParseDecimal(s) == Some(obj.ints[row] as int)
    ensures obj.LogicalVector? ==> (s == "1" <==> obj.lgls[row] != NA_LOGICAL && obj.lgls[row] != 0)
    ensures obj.LogicalVector? ==> (s == "0" <==> obj.lgls[row] == 0)
    ensures obj.CharacterVector? && obj.strs[row].Chars? ==> s == obj.strs[row].s
    ensures obj.NumericVector? ==> (obj.reals[row] == RealNA ==> s == "") && (obj.reals[row] == RealNaN ==> s == "NaN")
    ensures obj.NumericVector? ==> (obj.reals[row] == PosInf ==> s == "∞") && (obj.reals[row] == NegInf ==> s == "-∞")
    ensures obj.NumericVector? && obj.reals[row].Finite? ==> s == doubleToString(obj.reals[row].x)
  {
    match obj
    case NumericVector(xs) => FormatReal(xs[row], doubleToString)
    case IntegerVector(xs) => FormatInteger(xs[row])
    case LogicalVector(xs) => FormatLogical(xs[row])
    case CharacterVector(xs) => FormatString(xs[row])
    case OtherVector(_, _) => ""
  }

  /** Reading back a formatted integer: "" is NA, anything else its decimal value. */
  function ParseInteger(s: string): Int32 {
    match ParseDecimal(s)
    case Some(v) => if -0x8000_0000 <= v < 0x8000_0000 then v as Int32 else NA_INTEGER
    case None => NA_INTEGER
  }

  /** Integer formatting loses nothing, NA included. */
  lemma IntegerRoundTrip(x: Int32)
    ensures ParseInteger(FormatInteger(x)) == x
  {
    if x == NA_INTEGER {
      assert ParseDecimal("") == None;
    }
  }

  /** A missing text element and an empty text element both show as "". */
  lemma MissingAndEmptyTextLookAlike()
    ensures FormatString(NAString) == FormatString(Chars(""))
  {
  }

  /** When `doubleToString` never yields "", a real shows as "" only when NA,
      and the four markers and the formatter's output never collide. */
  lemma RealBlankOnlyWhenMissing(x: RDouble, doubleToString: DoubleFormatter)
    requires forall v :: doubleToString(v) != ""
    requires forall v :: doubleToString(v) !in {"NaN", "∞", "-∞"}
    ensures FormatReal(x, doubleToString) == "" <==> x == RealNA
    ensures x.Finite? ==> FormatReal(x, doubleToString) !in {"", "NaN", "∞", "-∞"}
  {
  }

  // ---------------------------------------------------------------------
  // One column (readCharacterVector)
  // ---------------------------------------------------------------------

  /** All rows of `obj`, formatted. */
  function FormatColumn(obj: RVector, doubleToString: DoubleFormatter): (r: seq<string>)
    ensures |r| == Size(obj)
    ensures forall row :: 0 <= row < |r| ==> r[row] == EntryToString(obj, row, doubleToString)
  {
    seq(Size(obj), row requires 0 <= row < Size(obj) => EntryToString(obj, row, doubleToString))
  }

  /** Formats the rows of `obj` one by one, in order. */
  method ReadCharacterVector(obj: RVector, doubleToString: DoubleFormatter) returns (vecresult: seq<string>)
    ensures |vecresult| == Size(obj)
    ensures forall row :: 0 <= row < Size(obj) ==> vecresult[row] == EntryToString(obj, row, doubleToString)
  {
    vecresult := [];
    var row := 0;
    while row < Size(obj)
      invariant 0 <= row <= Size(obj)
      invariant |vecresult| == row
      invariant forall k :: 0 <= k < row ==> vecresult[k] == EntryToString(obj, k, doubleToString)
    {
      vecresult := vecresult + [EntryToString(obj, row, doubleToString)];
      row := row + 1;
    }
  }

  // ---------------------------------------------------------------------
  // The whole frame (loadDataSet)
  // ---------------------------------------------------------------------

  /** A column of the frame with its entry in the frame's names. */
  datatype NamedVector = NamedVector(name: string, vector: RVector)

  type DataFrame = seq<NamedVector>

  function Max(a: nat, b: nat): nat {
    if a < b then b else a
  }

  /** The name a column gets: never empty; its own name when that is not
      empty, and otherwise "column_" followed by the decimal text of its
      position. */
  function ColumnName(name: string, colNr: nat): (r: string)
    ensures r != ""
    ensures name != "" ==> r == name
    ensures name == "" ==> |r| > 7 && r[..7] == "column_" && ParseDecimal(r[7..]) == Some(colNr as int)
  {
    if name == "" then
      var r := "column_" + IntToDecimal(colNr);
      IntToDecimalParses(colNr);
      assert r[7..] == IntToDecimal(colNr);
      r
    else name
  }

  /** Two unnamed columns never get the same synthesised name. */
  lemma SynthesisedNamesDistinct(i: nat, j: nat)
    requires i != j
    ensures ColumnName("", i) != ColumnName("", j)
  {
    var pre := "column_";
    assert ColumnName("", i)[|pre|..] == IntToDecimal(i);
    assert ColumnName("", j)[|pre|..] == IntToDecimal(j);
    if IntToDecimal(i) == IntToDecimal(j) {
      IntToDecimalInjective(i, j);
    }
  }

  /** The number of strings a column yields when `maxRows` rows were seen before it. */
  function StringsLength(v: RVector, maxRows: nat): nat {
    if v.OtherVector? then maxRows else Size(v)
  }

  /** The strings a column yields: its formatted rows, or `maxRows` blanks for a
      type the importer does not read. */
  function ColumnStrings(v: RVector, maxRows: nat, doubleToString: DoubleFormatter): (r: seq<string>)
    ensures |r| == StringsLength(v, maxRows)
    ensures !v.OtherVector? ==> forall i :: 0 <= i < |r| ==> r[i] == EntryToString(v, i, doubleToString)
    ensures v.OtherVector? ==> forall i :: 0 <= i < |r| ==> r[i] == ""
  {
    if v.OtherVector? then seq(maxRows, _ => "") else FormatColumn(v, doubleToString)
  }

  /** `maxRows` once the first `k` columns are processed. */
  function MaxRowsAfter(frame: DataFrame, k: nat): (r: nat)
    requires k <= |frame|
    ensures forall j :: 0 <= j < k ==> MaxRowsAfter(frame, j) <= r
  {
    if k == 0 then 0
    else
      var m := MaxRowsAfter(frame, k - 1);
      Max(m, StringsLength(frame[k - 1].vector, m))
  }

  /** Length of the strings column `j` yields during the import. */
  function ImportedLength(frame: DataFrame, j: nat): nat
    requires j < |frame|
  {
    StringsLength(frame[j].vector, MaxRowsAfter(frame, j))
  }

  /** After `k` columns, `maxRows` is the largest length among them (0 for none). */
  lemma {:induction false} MaxRowsIsMaximum(frame: DataFrame, k: nat)
    requires k <= |frame|
    ensures forall j :: 0 <= j < k ==> ImportedLength(frame, j) <= MaxRowsAfter(frame, k)
    ensures k == 0 ==> MaxRowsAfter(frame, k) == 0
    ensures k > 0 ==> exists j :: 0 <= j < k && ImportedLength(frame, j) == MaxRowsAfter(frame, k)
  {
    if k > 0 {
      MaxRowsIsMaximum(frame, k - 1);
      var m := MaxRowsAfter(frame, k - 1);
      if ImportedLength(frame, k - 1) < m {
        var j :| 0 <= j < k - 1 && ImportedLength(frame, j) == m;
        assert ImportedLength(frame, j) == MaxRowsAfter(frame, k);
      } else {
        assert ImportedLength(frame, k - 1) == MaxRowsAfter(frame, k);
      }
    }
  }

  /** The largest size among the columns the importer reads. */
  function SupportedMax(frame: DataFrame): nat {
    if frame == [] then 0
    else
      var last := frame[|frame| - 1].vector;
      Max(SupportedMax(frame[..|frame| - 1]), if last.OtherVector? then 0 else Size(last))
  }

  /** Columns of an unread type never change `maxRows`: it is the largest size
      among the columns that are read. */
  lemma {:induction false} MaxRowsIgnoresUnsupported(frame: DataFrame, k: nat)
    requires k <= |frame|
    ensures MaxRowsAfter(frame, k) == SupportedMax(frame[..k])
  {
    if k > 0 {
      assert frame[..k][..k - 1] == frame[..k - 1];
      MaxRowsIgnoresUnsupported(frame, k - 1);
    } else {
      assert frame[..k] == [];
    }
  }

  /** The column the store holds at position `k` once the import is done. */
  function ImportedColumn(frame: DataFrame, k: nat, threshold: int, orderLabelsByValue: bool,
                          doubleToString: DoubleFormatter, classify: Classifier): (c: Column)
    requires k < |frame|
    ensures c.name == ColumnName(frame[k].name, k)
    ensures |c.values| == ImportedLength(frame, k)
    ensures !frame[k].vector.OtherVector? ==>
      forall i :: 0 <= i < |c.values| ==> c.values[i] == EntryToString(frame[k].vector, i, doubleToString)
    ensures frame[k].vector.OtherVector? ==> forall i :: 0 <= i < |c.values| ==> c.values[i] == ""
    ensures var cl := classify(c.values, Unknown, threshold, orderLabelsByValue);
      c.colType == cl.colType && c.levels == cl.levels && c.doubles == cl.doubles && c.numericCount == cl.numericCount
  {
    ColumnFromStrings(ColumnName(frame[k].name, k),
                      ColumnStrings(frame[k].vector, MaxRowsAfter(frame, k), doubleToString),
                      Unknown, threshold, orderLabelsByValue, classify)
  }

  /** A column of an unread type becomes `maxRows` blanks, where `maxRows` is
      the longest of the columns before it, and leaves `maxRows` as it was. */
  lemma UnsupportedColumnIsBlank(frame: DataFrame, k: nat, threshold: int, orderLabelsByValue: bool,
                                 doubleToString: DoubleFormatter, classify: Classifier)
    requires k < |frame| && frame[k].vector.OtherVector?
    ensures MaxRowsAfter(frame, k + 1) == MaxRowsAfter(frame, k)
    ensures var c := ImportedColumn(frame, k, threshold, orderLabelsByValue, doubleToString, classify);
      |c.values| == MaxRowsAfter(frame, k) && forall r :: 0 <= r < |c.values| ==> c.values[r] == ""
  {
  }

  /** The "Unknown type of variable" lines written for the first `k` columns. */
  function UnknownTypeMessages(frame: DataFrame, k: nat): (r: seq<string>)
    requires k <= |frame|
    ensures |r| <= k
    ensures forall i :: 0 <= i < |r| ==> |r[i]| > |UnknownTypePrefix| && r[i][..|UnknownTypePrefix|] == UnknownTypePrefix
  {
    if k == 0 then []
    else
      UnknownTypeMessages(frame, k - 1)
      + (if frame[k - 1].vector.OtherVector?
         then [UnknownTypeMessage(frame, k - 1)]
         else [])
  }

  /** The console line for column `j` when its type is not read. */
  function UnknownTypeMessage(frame: DataFrame, j: nat): (m: string)
    requires j < |frame|
    ensures |m| == |UnknownTypePrefix| + |ColumnName(frame[j].name, j)| + 1
    ensures m[..|UnknownTypePrefix|] == UnknownTypePrefix && m[|m| - 1] == '!'
    ensures m[|UnknownTypePrefix|..|m| - 1] == ColumnName(frame[j].name, j)
  {
    UnknownTypePrefix + ColumnName(frame[j].name, j) + "!"
  }

  /** The positions, among the first `k`, of the columns of a type the importer
      does not read. */
  function UnreadColumns(frame: DataFrame, k: nat): set<nat>
    requires k <= |frame|
  {
    set j: nat | j < k && frame[j].vector.OtherVector?
  }

  /** The console holds one line per column of an unread type. */
  lemma UnknownTypeMessagesCount(frame: DataFrame, k: nat)
    requires k <= |frame|
    ensures |UnknownTypeMessages(frame, k)| == |UnreadColumns(frame, k)|
  {
    UnknownTypeLines(frame, k);
    UnreadColumnsCounted(frame, k);
  }

  /** How many of the first `k` columns are of a type the importer does not read. */
  function UnreadCount(frame: DataFrame, k: nat): nat
    requires k <= |frame|
  {
    if k == 0 then 0
    else UnreadCount(frame, k - 1) + (if frame[k - 1].vector.OtherVector? then 1 else 0)
  }

  lemma {:induction false} UnknownTypeLines(frame: DataFrame, k: nat)
    requires k <= |frame|
    ensures |UnknownTypeMessages(frame, k)| == UnreadCount(frame, k)
  {
    if k > 0 {
      UnknownTypeLines(frame, k - 1);
      UnknownTypeMessagesStep(frame, k);
    }
  }

  lemma {:induction false} UnreadColumnsCounted(frame: DataFrame, k: nat)
    requires k <= |frame|
    ensures |UnreadColumns(frame, k)| == UnreadCount(frame, k)
  {
    if k == 0 {
      assert UnreadColumns(frame, 0) == {};
    } else {
      UnreadColumnsCounted(frame, k - 1);
      UnreadColumnsStep(frame, k);
    }
  }

  /** Column k - 1 adds one console line exactly when its type is not read. */
  lemma UnknownTypeMessagesStep(frame: DataFrame, k: nat)
    requires 0 < k <= |frame|
    ensures |UnknownTypeMessages(frame, k)|
      == |UnknownTypeMessages(frame, k - 1)| + (if frame[k - 1].vector.OtherVector? then 1 else 0)
  {
  }

  /** Column k - 1 is one more unread column exactly when its type is not read. */
  lemma UnreadColumnsStep(frame: DataFrame, k: nat)
    requires 0 < k <= |frame|
    ensures |UnreadColumns(frame, k)|
      == |UnreadColumns(frame, k - 1)| + (if frame[k - 1].vector.OtherVector? then 1 else 0)
  {
    if frame[k - 1].vector.OtherVector? {
      assert k - 1 !in UnreadColumns(frame, k - 1);
      assert UnreadColumns(frame, k) == UnreadColumns(frame, k - 1) + {k - 1};
    } else {
      assert UnreadColumns(frame, k) == UnreadColumns(frame, k - 1);
    }
  }

  /** `m` is the warning for one of the first `k` columns, of a type not read. */
  predicate IsUnknownTypeMessage(frame: DataFrame, k: nat, m: string)
    requires k <= |frame|
  {
    exists j :: 0 <= j < k && frame[j].vector.OtherVector? && m == UnknownTypeMessage(frame, j)
  }

  /** Every console line is the warning for some column of an unread type. */
  lemma {:induction false} UnknownTypeMessagesSound(frame: DataFrame, k: nat)
    requires k <= |frame|
    ensures forall i :: 0 <= i < |UnknownTypeMessages(frame, k)| ==>
      IsUnknownTypeMessage(frame, k, UnknownTypeMessages(frame, k)[i])
  {
    if k > 0 {
      UnknownTypeMessagesSound(frame, k - 1);
      var before := UnknownTypeMessages(frame, k - 1);
      var r := UnknownTypeMessages(frame, k);
      forall i | 0 <= i < |r|
        ensures IsUnknownTypeMessage(frame, k, r[i])
      {
        if i < |before| {
          assert IsUnknownTypeMessage(frame, k - 1, before[i]);
          var j :| 0 <= j < k - 1 && frame[j].vector.OtherVector? && before[i] == UnknownTypeMessage(frame, j);
          assert r[i] == before[i];
        } else {
          assert frame[k - 1].vector.OtherVector? && r == before + [UnknownTypeMessage(frame, k - 1)];
          assert r[i] == UnknownTypeMessage(frame, k - 1);
        }
      }
    }
  }

  /** Every column of an unread type has its warning on the console. */
  lemma {:induction false} UnknownTypeMessagesComplete(frame: DataFrame, k: nat)
    requires k <= |frame|
    ensures forall j :: 0 <= j < k && frame[j].vector.OtherVector? ==> UnknownTypeMessage(frame, j) in UnknownTypeMessages(frame, k)
  {
    if k > 0 {
      UnknownTypeMessagesComplete(frame, k - 1);
      var before := UnknownTypeMessages(frame, k - 1);
      var r := UnknownTypeMessages(frame, k);
      assert forall m :: m in before ==> m in r;
      if frame[k - 1].vector.OtherVector? {
        assert r[|r| - 1] == UnknownTypeMessage(frame, k - 1);
      }
    }
  }

  /** The console holds exactly one "Unknown type of variable <name>!" line per
      column of an unread type, and no other line; it is empty exactly when every
      column is read. */
  lemma UnknownTypeMessagesExact(frame: DataFrame, k: nat)
    requires k <= |frame|
    ensures var r := UnknownTypeMessages(frame, k);
      |r| == |UnreadColumns(frame, k)| &&
      (forall i :: 0 <= i < |r| ==> IsUnknownTypeMessage(frame, k, r[i])) &&
      (forall j :: 0 <= j < k && frame[j].vector.OtherVector? ==> UnknownTypeMessage(frame, j) in r) &&
      (r == [] <==> forall j :: 0 <= j < k ==> !frame[j].vector.OtherVector?)
  {
    UnknownTypeMessagesCount(frame, k);
    UnknownTypeMessagesSound(frame, k);
    UnknownTypeMessagesComplete(frame, k);
  }

  const UnknownTypePrefix := "Unknown type of variable "

  /** One pass of the import loop: name, format and hand over column `colNr`,
      updating `maxRows` and the dataset's row count. */
  method ImportColumn(dataset: DataSet, frame: DataFrame, colNr: nat, maxRows: nat,
                      threshold: int, orderLabelsByValue: bool,
                      doubleToString: DoubleFormatter, classify: Classifier)
    returns (newMaxRows: nat, console: seq<string>)
    requires colNr < |frame| == |dataset.columns|
    requires maxRows == MaxRowsAfter(frame, colNr)
    modifies dataset
    ensures newMaxRows == MaxRowsAfter(frame, colNr + 1)
    ensures dataset.columns ==
      old(dataset.columns)[colNr := ImportedColumn(frame, colNr, threshold, orderLabelsByValue, doubleToString, classify)]
    ensures dataset.rowCount == Max(old(dataset.rowCount), newMaxRows)
    ensures UnknownTypeMessages(frame, colNr + 1) == UnknownTypeMessages(frame, colNr) + console
  {
    var name := frame[colNr].name;
    if name == "" {
      name := "column_" + IntToDecimal(colNr);
    }
    var colObj := frame[colNr].vector;
    var column: seq<string>;
    console := [];
    if !colObj.OtherVector? {
      column := ReadCharacterVector(colObj, doubleToString);
      assert column == FormatColumn(colObj, doubleToString);
    } else {
      console := [UnknownTypePrefix + name + "!"];
      column := seq(maxRows, _ => "");
    }
    assert column == ColumnStrings(colObj, maxRows, doubleToString);
    newMaxRows := maxRows;
    if |column| > newMaxRows {
      newMaxRows := |column|;
    }
    if dataset.rowCount < newMaxRows {
      dataset.SetRowCount(newMaxRows);
    }
    dataset.InitColumnWithStrings(colNr, name, column, Unknown, threshold, orderLabelsByValue, classify);
  }

  /** Imports `frame` into `dataset`: one store column per frame column, in
      order; the row count grows to the longest column and never shrinks; short
      columns are not padded. Returns the diagnostic lines written to the console. */
  method LoadDataSet(dataset: DataSet, frame: DataFrame, threshold: int, orderLabelsByValue: bool,
                     doubleToString: DoubleFormatter, classify: Classifier)
    returns (console: seq<string>)
    modifies dataset
    ensures |dataset.columns| == |frame|
    ensures forall k :: 0 <= k < |frame| ==>
      dataset.columns[k] == ImportedColumn(frame, k, threshold, orderLabelsByValue, doubleToString, classify)
    ensures dataset.rowCount == Max(old(dataset.rowCount), MaxRowsAfter(frame, |frame|))
    ensures console == UnknownTypeMessages(frame, |frame|)
  {
    dataset.SetColumnCount(|frame|);
    var maxRows: nat := 0;
    console := [];
    var colNr := 0;
    while colNr < |frame|
      invariant 0 <= colNr <= |frame|
      invariant |dataset.columns| == |frame|
      invariant forall k :: 0 <= k < colNr ==>
        dataset.columns[k] == ImportedColumn(frame, k, threshold, orderLabelsByValue, doubleToString, classify)
      invariant maxRows == MaxRowsAfter(frame, colNr)
      invariant dataset.rowCount == Max(old(dataset.rowCount), maxRows)
      invariant console == UnknownTypeMessages(frame, colNr)
    {
      var lines;
      maxRows, lines := ImportColumn(dataset, frame, colNr, maxRows, threshold, orderLabelsByValue,
                                     doubleToString, classify);
      console := console + lines;
      colNr := colNr + 1;
    }
  }
}

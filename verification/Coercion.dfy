/** coerce_row of generate_incentive_reference: text columns made numbers and flags. */
module Coercion {
  import opened Base
  import opened Text
  import opened Money
  import opened MoneyProofs

  datatype Cell = Null | Words(text: string) | Number(x: real) | Flag(yes: bool)

  type Row = map<string, Cell>

  /** `float(text)`, None where it raises ValueError. */
  type Float = string -> Option<real>

  const FALSEY: set<string> := {"", "false", "f", "0", "no", "n", "none", "null"}

  function CoerceNumber(float: Float, cell: Cell): Cell {
    if !cell.Words? then cell
    else if Strip(cell.text) == "" then Null
    else match float(Strip(NoCommas(cell.text))) case None => Null case Some(x) => Number(x)
  }

  function CoerceFlag(cell: Cell): Cell { if cell.Words? then Flag(Lower(Strip(cell.text)) !in FALSEY) else cell }

  /** What each column of the coerced row holds. */
  function CoerceCell(float: Float, numeric: set<string>, flags: set<string>, column: string, cell: Cell): Cell {
    if column in numeric then CoerceNumber(float, cell) else if column in flags then CoerceFlag(cell) else cell
  }

  function CoerceAll(float: Float, numeric: set<string>, flags: set<string>, row: Row): Row {
    map column | column in row :: CoerceCell(float, numeric, flags, column, row[column])
  }

  /** The two loops over the copied row, in whatever order the columns come. */
  method CoerceRow(float: Float, numeric: set<string>, flags: set<string>, row: Row) returns (out: Row)
    requires numeric !! flags
    ensures out == CoerceAll(float, numeric, flags, row)
  {
    hide CoerceNumber, CoerceFlag;
    out := CoerceNumbers(float, numeric, row);
    out := CoerceFlags(flags, out);
  }

  method CoerceNumbers(float: Float, numeric: set<string>, row: Row) returns (out: Row)
    ensures out.Keys == row.Keys
    ensures forall c :: c in row ==> out[c] == if c in numeric then CoerceNumber(float, row[c]) else row[c]
  {
    hide CoerceNumber;
    out := row;
    var todo := numeric * row.Keys;
    while todo != {}
      invariant todo <= numeric * row.Keys && out.Keys == row.Keys
      invariant forall c :: c in row ==> out[c] == if c in numeric && c !in todo then CoerceNumber(float, row[c]) else row[c]
      decreases |todo|
    {
      var column :| column in todo;
      out := out[column := CoerceNumber(float, out[column])];
      todo := todo - {column};
    }
  }

  method CoerceFlags(flags: set<string>, row: Row) returns (out: Row)
    ensures out.Keys == row.Keys
    ensures forall c :: c in row ==> out[c] == if c in flags then CoerceFlag(row[c]) else row[c]
  {
    hide CoerceFlag;
    out := row;
    var todo := flags * row.Keys;
    while todo != {}
      invariant todo <= flags * row.Keys && out.Keys == row.Keys
      invariant forall c :: c in row ==> out[c] == if c in flags && c !in todo then CoerceFlag(row[c]) else row[c]
      decreases |todo|
    {
      var column :| column in todo;
      out := out[column := CoerceFlag(out[column])];
      todo := todo - {column};
    }
  }

  /** float reads a plain decimal numeral as its value. */
  ghost predicate ReadsDecimals(float: Float) { forall n: nat :: float(Decimal(n)) == Some(n as real) }

  /** An amount printed with thousands separators is read back as that amount. */
  lemma {:induction false} PrintedAmountReadsBack(float: Float, n: nat)
    requires ReadsDecimals(float)
    ensures CoerceNumber(float, Words(Grouped(n))) == Number(n as real)
  {
    hide Strip, Grouped, Decimal;
    GroupedIs(n);
    PlainTextKept(Grouped(n));
    PlainTextKept(Decimal(n));
  }

  /** Coercing a coerced row changes nothing. */
  lemma {:induction false} CoercionSettles(float: Float, numeric: set<string>, flags: set<string>, row: Row)
    ensures var out := CoerceAll(float, numeric, flags, row); CoerceAll(float, numeric, flags, out) == out
  {
  }

  /** The eight texts that are read as false. */
  ghost predicate SaysNo(text: string) {
    var s := Lower(Strip(text));
    s == "" || s == "false" || s == "f" || s == "0" || s == "no" || s == "n" || s == "none" || s == "null"
  }

  /** A number column holds what its text says once the commas are gone, and nothing
      when it is blank or says no number. */
  ghost predicate NumberRead(float: Float, before: Cell, after: Cell) {
    if !before.Words? then after == before
    else if Strip(before.text) == "" || float(Strip(NoCommas(before.text))).None? then after == Null
    else after == Number(float(Strip(NoCommas(before.text))).value)
  }

  /** A flag column is false for the eight texts and true for any other; what is not
      text stays. */
  ghost predicate FlagRead(before: Cell, after: Cell) {
    if !before.Words? then after == before else after == Flag(!SaysNo(before.text))
  }

  /** Commas out and nothing else, in order. */
  lemma {:induction false} CommasOut(a: string, b: string)
    ensures NoCommas("") == "" && NoCommas(a + b) == NoCommas(a) + NoCommas(b)
    ensures forall c :: NoCommas([c]) == if c == ',' then "" else [c]
  {
    NoCommasConcat(a, b);
    forall c ensures NoCommas([c]) == if c == ',' then "" else [c] { assert [c][..0] == ""; }
  }

  /** The coerced row: same columns, each read by its kind. */
  lemma {:induction false} CoercedCells(float: Float, numeric: set<string>, flags: set<string>, row: Row, column: string)
    requires numeric !! flags && column in row
    ensures var out := CoerceAll(float, numeric, flags, row);
            && out.Keys == row.Keys
            && (column in numeric ==> NumberRead(float, row[column], out[column]))
            && (column in flags ==> FlagRead(row[column], out[column]))
            && (column !in numeric && column !in flags ==> out[column] == row[column])
  {
    hide Strip, Lower;
    if row[column].Words? { FalseyIs(row[column].text); }
  }

  lemma {:induction false} FalseyIs(text: string)
    ensures Lower(Strip(text)) in FALSEY <==> SaysNo(text)
  {
    hide Strip, Lower;
  }
}

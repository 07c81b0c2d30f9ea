/**
 * The output of the document-analysis flow and the defaulting that
 * `analyzeUploadedDocumentFlow` applies, in place, to what the prompt
 * returned before handing it on.
 */
module DocumentFlow {
  import opened Wrappers
  import opened Tables

  /** Any JSON value the model may put in a field the schema does not declare. */
  datatype Json = Null | Bool(b: bool) | Number(n: int) | Str(s: string) | Arr(items: seq<Json>) | Obj(fields: map<string, Json>)

  /** The output as a value: the declared `extractedTable` (None when missing) and any other fields. */
  datatype OutputValue = OutputValue(extractedTable: Option<LooseTable>, undeclared: map<string, Json>)

  /** Reading a field the schema does not declare; None stands for `undefined`. */
  function Field(o: OutputValue, name: string): Option<Json>
  {
    if name in o.undeclared then Some(o.undeclared[name]) else None
  }

  /** `{ headers: [], rows: [] }`. */
  const EmptyTable: LooseTable := LooseTable(Some([]), Some([]))

  /** The shape the output schema requires: a table with both its headers and its rows. */
  predicate WellShaped(v: OutputValue)
  {
    v.extractedTable.Some? && v.extractedTable.value.headers.Some? && v.extractedTable.value.rows.Some?
  }

  /**
   * The output once the flow body has run: a missing table becomes the empty
   * table; in a present table a missing `headers` or `rows` becomes `[]`.
   */
  function Defaulted(v: OutputValue): (r: OutputValue)
    ensures WellShaped(r)
    ensures r.undeclared == v.undeclared
    ensures v.extractedTable.None? ==> r.extractedTable == Some(EmptyTable)
    ensures v.extractedTable.Some? ==>
      var (t, u) := (v.extractedTable.value, r.extractedTable.value);
      && (t.headers.Some? ==> u.headers == t.headers)
      && (t.headers.None? ==> u.headers == Some([]))
      && (t.rows.Some? ==> u.rows == t.rows)
      && (t.rows.None? ==> u.rows == Some([]))
  {
    match v.extractedTable
    case None => OutputValue(Some(EmptyTable), v.undeclared)
    case Some(t) =>
      var headers := if t.headers.None? then Some([]) else t.headers;
      var rows := if t.rows.None? then Some([]) else t.rows;
      OutputValue(Some(LooseTable(headers, rows)), v.undeclared)
  }

  /** An output that already has its table, headers and rows comes back unchanged. */
  lemma DefaultedKeepsWellShaped(v: OutputValue)
    requires WellShaped(v)
    ensures Defaulted(v) == v
  {
  }

  /** Defaulting twice is defaulting once. */
  lemma DefaultedIdempotent(v: OutputValue)
    ensures Defaulted(Defaulted(v)) == Defaulted(v)
  {
    DefaultedKeepsWellShaped(Defaulted(v));
  }

  /** The `extractedTable` object of an output, updated in place. */
  class TableObject {
    var headers: Option<seq<Cell>>
    var rows: Option<seq<seq<Cell>>>

    constructor (headers: Option<seq<Cell>>, rows: Option<seq<seq<Cell>>>)
      ensures this.headers == headers && this.rows == rows
    {
      this.headers := headers;
      this.rows := rows;
    }

    function Value(): LooseTable
      reads this
    {
      LooseTable(headers, rows)
    }
  }

  /** The object the prompt returns; null for a missing table. */
  class Output {
    var extractedTable: TableObject?
    var undeclared: map<string, Json>

    constructor (extractedTable: TableObject?, undeclared: map<string, Json>)
      ensures this.extractedTable == extractedTable && this.undeclared == undeclared
    {
      this.extractedTable := extractedTable;
      this.undeclared := undeclared;
    }

    function Value(): OutputValue
      reads this, extractedTable
    {
      OutputValue(if extractedTable == null then None else Some(extractedTable.Value()), undeclared)
    }
  }

  /**
   * Lines 73-78 of the flow body: a missing table is replaced by a fresh
   * empty one; otherwise the existing table object gets its missing fields
   * filled in and keeps the ones it has.
   */
  method FillDefaults(output: Output)
    modifies output, output.extractedTable
    ensures output.Value() == Defaulted(old(output.Value()))
    ensures old(output.extractedTable) == null ==> fresh(output.extractedTable)
    ensures old(output.extractedTable) != null ==> output.extractedTable == old(output.extractedTable)
  {
    if output.extractedTable == null {
      output.extractedTable := new TableObject(Some([]), Some([]));
    } else {
      if output.extractedTable.headers.None? {
        output.extractedTable.headers := Some([]);
      }
      if output.extractedTable.rows.None? {
        output.extractedTable.rows := Some([]);
      }
    }
  }

  /** The TypeError that `output!.extractedTable` raises when the prompt returned no output. */
  const NullOutputError: string := "Cannot read properties of null (reading 'extractedTable')"

  /**
   * The flow body after the prompt: with no output the property access
   * throws; otherwise the output is defaulted in place and returned.
   */
  method FlowBody(output: Output?) returns (r: Result<Output, Thrown>)
    modifies output, if output == null then null else output.extractedTable
    ensures output == null ==> r == Failure(ErrorInstance(NullOutputError))
    ensures output != null ==> r == Success(output) && output.Value() == Defaulted(old(output.Value()))
    ensures output != null ==> WellShaped(output.Value())
  {
    if output == null {
      return Failure(ErrorInstance(NullOutputError));
    }
    FillDefaults(output);
    r := Success(output);
  }
}

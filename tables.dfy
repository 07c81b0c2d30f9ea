/**
 * The table shapes shared by the exporters and the document flow, and the
 * guard that both exporters of the data-capture page apply before they
 * emit anything.
 */
module Tables {
  import opened Wrappers

  /** A cell as the page holds it: a string, or None for null/undefined. */
  type Cell = Option<string>

  /** A table-shaped object whose `headers` and `rows` may each be missing. */
  datatype LooseTable = LooseTable(headers: Option<seq<Cell>>, rows: Option<seq<seq<Cell>>>)

  /** One entry of the flatter heading/value table produced by the image flow. */
  datatype HeadingValueRow = HeadingValueRow(heading: string, value: string)

  /**
   * What an exporter is handed: the result object shown on the page, seen
   * through the two properties the exporters look up, `table` and
   * `extractedTable` (None when the object has no such property).
   */
  datatype ExportData = ExportData(table: Option<LooseTable>, extractedTable: Option<LooseTable>)

  /** What one press of a download button produces. */
  datatype Export<+T> =
    | Ignored          // no data at all: the handler returns silently
    | Refused          // no usable table: an error toast, no file
    | Exported(file: T)

  /** `data.table || data.extractedTable`: an object, even an empty array, is truthy. */
  function TableSource(data: ExportData): Option<LooseTable>
  {
    if data.table.Some? then data.table else data.extractedTable
  }

  /** The exporters' guard: a source exists with non-empty `headers` and non-empty `rows`. */
  predicate Exportable(t: Option<LooseTable>)
  {
    && t.Some?
    && t.value.headers.Some? && |t.value.headers.value| > 0
    && t.value.rows.Some? && |t.value.rows.value| > 0
  }

  /** The headers and rows an export works on, once the guard has passed. */
  function Headers(t: Option<LooseTable>): (h: seq<Cell>)
    requires Exportable(t)
    ensures |h| > 0
  {
    t.value.headers.value
  }

  function Rows(t: Option<LooseTable>): (r: seq<seq<Cell>>)
    requires Exportable(t)
    ensures |r| > 0
  {
    t.value.rows.value
  }

  /**
   * The heading/value array that an image analysis leaves on the page as its
   * content, seen by the exporters. The claim lies in the body: a JavaScript
   * array has neither a `table` nor an `extractedTable` property, so both
   * look-ups give undefined whatever the entries are; the ensures then says
   * that the exporters' guard refuses it.
   */
  function ImageContentForExport(rows: seq<HeadingValueRow>): (d: ExportData)
    ensures !Exportable(TableSource(d))
  {
    ExportData(None, None)
  }
}

/**
 * The decisions made by services/google/googlesheet.js around its calls to the
 * spreadsheet service: whether row 1 must be (re)written with the header, which
 * row a new record goes to, which tab id styling uses, and which formatting
 * requests are sent. Every response of the service is a parameter here.
 */
module GoogleSheet {
  import opened Wrappers
  import opened ArrayJoin

  /** A row of cell values as the service returns it. */
  type Row = seq<string>

  /** The tab every operation works on. */
  const SheetTab: string := "Test Run"

  /** The fixed header tuple of row 1. */
  const Header: Row := ["id", "from", "message", "created_at"]

  /** Index of the `message` column (column C). */
  const MessageColumn: nat := 2

  // ---------------------------------------------------------------------------
  // Tab lookup
  // ---------------------------------------------------------------------------

  /** A tab of the spreadsheet as listed in its metadata: `properties.title` and `properties.sheetId`. */
  datatype Tab = Tab(title: string, sheetId: int)

  /** The errors the code raises itself. */
  datatype Error = TabNotFound(name: string)

  /**
   * `getSheetIdByName`: the id of the FIRST tab whose title equals `name`,
   * or a tab-not-found error when no title matches.
   */
  function GetSheetIdByName(name: string, tabs: seq<Tab>): (r: Result<int, Error>)
    ensures r.Err? <==> forall k :: 0 <= k < |tabs| ==> tabs[k].title != name
    ensures r.Err? ==> r.error == TabNotFound(name)
    ensures r.Ok? ==> exists k :: 0 <= k < |tabs| && tabs[k].title == name && tabs[k].sheetId == r.value
                                  && forall j :: 0 <= j < k ==> tabs[j].title != name
  {
    if |tabs| == 0 then Err(TabNotFound(name))
    else if tabs[0].title == name then Ok(tabs[0].sheetId)
    else
      var r := GetSheetIdByName(name, tabs[1..]);
      assert forall k :: 0 <= k < |tabs| - 1 ==> tabs[1..][k] == tabs[k + 1];
      r
  }

  /** The tab lookup is decided by the first match: whatever follows it is never consulted. */
  lemma {:induction false} GetSheetIdIgnoresLaterTabs(name: string, tabs: seq<Tab>, later: seq<Tab>)
    requires exists k :: 0 <= k < |tabs| && tabs[k].title == name
    ensures GetSheetIdByName(name, tabs + later) == GetSheetIdByName(name, tabs)
  {
    if tabs[0].title != name {
      assert (tabs + later)[1..] == tabs[1..] + later;
      var k :| 0 <= k < |tabs| && tabs[k].title == name;
      assert tabs[1..][k - 1].title == name;
      GetSheetIdIgnoresLaterTabs(name, tabs[1..], later);
    }
  }

  // ---------------------------------------------------------------------------
  // Header row
  // ---------------------------------------------------------------------------

  /**
   * `ensureHeaderRow`: given the values read from A1:D1 (absent when the range
   * is empty), the update body written to A1:D1, or None when no write is made.
   */
  function EnsureHeaderRow(values: Option<seq<Row>>): (update: Option<seq<Row>>)
    ensures update.Some? ==> update.value == [Header]
    ensures update.Some? <==>
      (values.None? || |values.value| == 0 || Join(values.value[0]) != "id,from,message,created_at")
  {
    HeaderText();
    if values.None? || |values.value| == 0 || Join(values.value[0]) != Join(Header) then Some([Header])
    else None
  }

  /** The header tuple joins to the text "id,from,message,created_at". */
  lemma HeaderText()
    ensures Join(Header) == "id,from,message,created_at"
  {
  }

  /**
   * When no cell of row 1 contains a comma, the header is written exactly when
   * row 1 is missing or differs from the header tuple, cell by cell and in order.
   */
  lemma HeaderWriteCellwise(values: Option<seq<Row>>)
    requires values.Some? && |values.value| > 0 ==> CommaFree(values.value[0])
    ensures EnsureHeaderRow(values).Some? <==> (values.None? || |values.value| == 0 || values.value[0] != Header)
  {
    if values.Some? && |values.value| > 0 && values.value[0] != Header {
      var first := values.value[0];
      if |first| > 0 && Join(first) == Join(Header) {
        JoinInjective(first, Header);
      }
    }
  }

  /**
   * The comparison is on the joined text, not cell by cell: a row 1 that
   * splits the header text at different commas is not the header tuple, yet
   * no write is made.
   */
  lemma HeaderJoinedComparisonQuirk()
    ensures var row1 := ["id,from", "message", "created_at"];
      row1 != Header && EnsureHeaderRow(Some([row1])) == None
  {
  }

  /** What the A1:D1 read returns after an ensure step, when the service returns what it was given. */
  function HeaderReadAfter(values: Option<seq<Row>>): Option<seq<Row>>
  {
    match EnsureHeaderRow(values)
    case Some(written) => Some(written)
    case None => values
  }

  /**
   * Idempotence: two ensure steps in succession make at most one write, and
   * the second never writes.
   */
  lemma EnsureHeaderIdempotent(values: Option<seq<Row>>)
    ensures EnsureHeaderRow(HeaderReadAfter(values)) == None
  {
  }

  // ---------------------------------------------------------------------------
  // The remote sheet, as far as these operations see it
  // ---------------------------------------------------------------------------

  /**
   * `values.update` on a single-row range: row number `rowNumber` (1-based)
   * now holds `record`; rows in between that did not exist are blank.
   */
  function WriteRow(sheet: seq<Row>, rowNumber: nat, record: Row): (after: seq<Row>)
    requires rowNumber >= 1
    ensures |after| == if rowNumber <= |sheet| then |sheet| else rowNumber
    ensures after[rowNumber - 1] == record
    ensures forall k :: 0 <= k < |after| && k != rowNumber - 1 ==>
              after[k] == if k < |sheet| then sheet[k] else []
  {
    if rowNumber <= |sheet| then sheet[rowNumber - 1 := record]
    else sheet + seq(rowNumber - 1 - |sheet|, _ => []) + [record]
  }

  /** `values.get` on A1:D1: absent when the sheet has no rows. */
  function ReadHeaderRange(sheet: seq<Row>): Option<seq<Row>>
  {
    if |sheet| == 0 then None else Some([sheet[0]])
  }

  /** `values.get` on A2:D: absent when the sheet has no data rows. */
  function ReadDataRange(sheet: seq<Row>): Option<seq<Row>>
  {
    if |sheet| <= 1 then None else Some(sheet[1..])
  }

  /** `values.get` on A:D: absent when the sheet has no rows. */
  function ReadAll(sheet: seq<Row>): Option<seq<Row>>
  {
    if |sheet| == 0 then None else Some(sheet)
  }

  // ---------------------------------------------------------------------------
  // Append target
  // ---------------------------------------------------------------------------

  /**
   * The 1-based row `insertRow` writes to: 2 plus the number of data rows read
   * from A2:D, a missing response counting as none. Row 1 is never the target.
   */
  function NextRowIndex(dataRows: Option<seq<Row>>): (row: nat)
    ensures row >= 2
    ensures dataRows.None? ==> row == 2
  {
    2 + |dataRows.GetOr([])|
  }

  /**
   * Writing at the append target of a sheet that has row 1 adds the record
   * just below the last row: nothing is overwritten and no blank row is left.
   */
  lemma AppendTargetFollowsLastRow(sheet: seq<Row>, record: Row)
    requires |sheet| >= 1
    ensures NextRowIndex(ReadDataRange(sheet)) == |sheet| + 1
    ensures WriteRow(sheet, NextRowIndex(ReadDataRange(sheet)), record) == sheet + [record]
  {
  }

  // ---------------------------------------------------------------------------
  // Styling
  // ---------------------------------------------------------------------------

  /** The two background colours: light green {0.88, 1, 0.88} and light blue {0.88, 0.92, 1}. */
  datatype Tone = Green | Blue

  /** A `repeatCell` request of the batch update, over rows and columns [start, end). */
  datatype Request =
    | Background(sheetId: int, tone: Tone, startRowIndex: nat, endRowIndex: nat,
                 startColumnIndex: nat, endColumnIndex: nat)
    | Bold(sheetId: int, startRowIndex: nat, endRowIndex: nat,
           startColumnIndex: nat, endColumnIndex: nat)

  /** Odd rows are green, even rows blue. */
  function ToneOf(i: nat): Tone
  {
    if i % 2 == 1 then Green else Blue
  }

  /** The two requests built for data row `i` (0-based row index). */
  function RowRequests(sheetId: int, i: nat): seq<Request>
  {
    [ Background(sheetId, ToneOf(i), i, i + 1, 0, 4),
      Bold(sheetId, i, i + 1, MessageColumn, MessageColumn + 1) ]
  }

  /** The requests built for a sheet of `numRows` rows: those of rows 1 .. numRows-1, in order. */
  function StyleRequests(sheetId: int, numRows: nat): (r: seq<Request>)
    ensures |r| == if numRows < 2 then 0 else 2 * (numRows - 1)
  {
    if numRows < 2 then [] else StyleRequests(sheetId, numRows - 1) + RowRequests(sheetId, numRows - 1)
  }

  /** Entry 2(i-1) styles the background of row i over columns [0,4); entry 2(i-1)+1 makes its message cell bold. */
  lemma {:induction false} StyleRequestsAt(sheetId: int, numRows: nat, i: nat)
    requires 1 <= i < numRows
    ensures StyleRequests(sheetId, numRows)[2 * (i - 1)] == Background(sheetId, ToneOf(i), i, i + 1, 0, 4)
    ensures StyleRequests(sheetId, numRows)[2 * (i - 1) + 1] == Bold(sheetId, i, i + 1, 2, 3)
  {
    if i < numRows - 1 {
      StyleRequestsAt(sheetId, numRows - 1, i);
    }
  }

  /**
   * Every request covers exactly one row, never the header row 0 and never past
   * the last row; backgrounds span columns A-D and bold spans only the message column.
   */
  lemma {:induction false} StyleRequestsRanges(sheetId: int, numRows: nat)
    ensures forall k :: 0 <= k < |StyleRequests(sheetId, numRows)| ==>
      var q := StyleRequests(sheetId, numRows)[k];
      && q.sheetId == sheetId
      && 1 <= q.startRowIndex < numRows
      && q.endRowIndex == q.startRowIndex + 1
      && (q.Background? ==> q.startColumnIndex == 0 && q.endColumnIndex == 4)
      && (q.Bold? ==> q.startColumnIndex == MessageColumn && q.endColumnIndex == MessageColumn + 1
                      && Header[q.startColumnIndex] == "message")
  {
    var r := StyleRequests(sheetId, numRows);
    forall k | 0 <= k < |r|
      ensures r[k].sheetId == sheetId && 1 <= r[k].startRowIndex < numRows
      ensures r[k].endRowIndex == r[k].startRowIndex + 1
      ensures r[k].Background? ==> r[k].startColumnIndex == 0 && r[k].endColumnIndex == 4
      ensures r[k].Bold? ==> r[k].startColumnIndex == MessageColumn && r[k].endColumnIndex == MessageColumn + 1
    {
      StyleRequestsAt(sheetId, numRows, k / 2 + 1);
    }
  }

  /** Row i is green exactly when i is odd, so consecutive data rows never share a background. */
  lemma {:induction false} StyleBandsAlternate(sheetId: int, numRows: nat, i: nat)
    requires 1 <= i < numRows
    ensures var r := StyleRequests(sheetId, numRows);
      && r[2 * (i - 1)].Background?
      && (r[2 * (i - 1)].tone == Green <==> i % 2 == 1)
    ensures i + 1 < numRows ==>
      var r := StyleRequests(sheetId, numRows);
      r[2 * i].Background? && r[2 * (i - 1)].tone != r[2 * i].tone
  {
    StyleRequestsAt(sheetId, numRows, i);
    if i + 1 < numRows {
      StyleRequestsAt(sheetId, numRows, i + 1);
    }
  }

  /** What `styleSheetRows` ends in: no batch sent, one batch of requests sent, or an error thrown. */
  datatype StyleOutcome = NoBatch | Batch(requests: seq<Request>) | Failed(error: Error)

  /** The number of rows read from A:D; an absent response counts as no rows. */
  function NumRows(values: Option<seq<Row>>): nat
  {
    if values.Some? then |values.value| else 0
  }

  /**
   * `styleSheetRows`, given the values read from A:D and the spreadsheet's tabs.
   * With fewer than two rows nothing is looked up or sent; otherwise the tab is
   * looked up and, if found, one batch holds the requests of every data row.
   */
  method StyleSheetRows(values: Option<seq<Row>>, tabs: seq<Tab>) returns (out: StyleOutcome)
    ensures out == NoBatch <==> NumRows(values) < 2
    ensures NumRows(values) >= 2 && GetSheetIdByName(SheetTab, tabs).Err? ==>
              out == Failed(TabNotFound(SheetTab))
    ensures NumRows(values) >= 2 && GetSheetIdByName(SheetTab, tabs).Ok? ==>
              out == Batch(StyleRequests(GetSheetIdByName(SheetTab, tabs).value, NumRows(values)))
  {
    var numRows := if values.Some? then |values.value| else 0;
    if numRows < 2 {
      return NoBatch;
    }
    var found := GetSheetIdByName(SheetTab, tabs);
    if found.Err? {
      return Failed(found.error);
    }
    var sheetId := found.value;
    var requests: seq<Request> := [];
    var i := 1;
    while i < numRows
      invariant 1 <= i <= numRows
      invariant requests == StyleRequests(sheetId, i)
    {
      var tone := if i % 2 == 1 then Green else Blue;
      requests := requests + [Background(sheetId, tone, i, i + 1, 0, 4)];
      requests := requests + [Bold(sheetId, i, i + 1, 2, 3)];
      i := i + 1;
    }
    if |requests| == 0 {
      return NoBatch;
    }
    out := Batch(requests);
  }

  // ---------------------------------------------------------------------------
  // Inserting a record
  // ---------------------------------------------------------------------------

  /**
   * `insertRow`, on a sheet given as its rows: builds the record from the
   * generated `id` and `createdAt`, ensures the header, writes the record at the
   * append target and restyles every row. Returns the record, the rows
   * afterwards and how styling ended. The source hands the record back only
   * when styling did not fail; on `Failed` it rejects instead, with the record
   * already written.
   */
  method InsertRow(sheet: seq<Row>, from: string, message: string, id: string, createdAt: string,
                   tabs: seq<Tab>)
    returns (row: Row, after: seq<Row>, style: StyleOutcome)
    ensures row == [id, from, message, createdAt]
    ensures |after| == (if |sheet| == 0 then 1 else |sheet|) + 1
    ensures after[|after| - 1] == row
    ensures forall k :: 1 <= k < |after| - 1 ==> after[k] == sheet[k]
    ensures Join(after[0]) == Join(Header)
    ensures after[0] == if |sheet| > 0 && Join(sheet[0]) == Join(Header) then sheet[0] else Header
    ensures |sheet| == 0 || CommaFree(sheet[0]) ==> after[0] == Header
    ensures sheet == [] ==> after == [Header, row]
    ensures GetSheetIdByName(SheetTab, tabs).Err? ==> style == Failed(TabNotFound(SheetTab))
    ensures GetSheetIdByName(SheetTab, tabs).Ok? ==>
              style == Batch(StyleRequests(GetSheetIdByName(SheetTab, tabs).value, |after|))
    ensures sheet == [] && GetSheetIdByName(SheetTab, tabs).Ok? ==>
              style == Batch([Background(GetSheetIdByName(SheetTab, tabs).value, Green, 1, 2, 0, 4),
                              Bold(GetSheetIdByName(SheetTab, tabs).value, 1, 2, 2, 3)])
  {
    row := [id, from, message, createdAt];
    var headed := sheet;
    var update := EnsureHeaderRow(ReadHeaderRange(sheet));
    if update.Some? {
      headed := WriteRow(sheet, 1, Header);
    }
    if |sheet| > 0 && CommaFree(sheet[0]) {
      HeaderWriteCellwise(ReadHeaderRange(sheet));
    }
    var next := NextRowIndex(ReadDataRange(headed));
    AppendTargetFollowsLastRow(headed, row);
    after := WriteRow(headed, next, row);
    style := StyleSheetRows(ReadAll(after), tabs);
  }
}

/**
 * The Google Sheets export of the dashboard (frontend/dashboard/sheets_client.py,
 * frontend/dashboard/sync_service.py) and of the older server
 * (responses-api-server/google_sheets_sync.py): cell truncation, the
 * query/response pairing of the "UserInteractions" sheet, and the
 * availability guard in front of every sheet operation. The Sheets API is
 * a map from sheet name to rows; the database rows arrive already ordered
 * as the queries order them.
 */
module SheetsExport {
  import opened Common

  // ---------------------------------------------------------------------------
  // Cell truncation
  // ---------------------------------------------------------------------------

  /** Sheets allow 50,000 characters per cell; both exporters keep a 5,000 margin. */
  const MaxCellLength := 45000

  /** The room `content[:max_length - 50]` leaves for the marker. */
  const MarkerRoom := 50

  const MarkerHead := "\n\n... [TRUNCATED - Original length: "
  const MarkerTail := " chars]"

  function Marker(n: nat): (m: string)
    ensures |m| == 43 + |NatToString(n)|
  {
    MarkerHead + NatToString(n) + MarkerTail
  }

  /**
   * `truncate_content` / `truncate_cell_content`: None and "" come back as
   * they are; a missing or zero limit means 45000; longer text keeps its
   * first `max_length - 50` characters (a negative bound counts from the
   * end, as a Python slice does) followed by a marker with the original length.
   */
  function Truncate(content: Option<string>, maxLength: Option<int>): (r: Option<string>)
    ensures !Truthy(content) ==> r == content
    ensures Truthy(content) ==> r.Some?
    ensures Truthy(content) && |content.value| <= EffectiveLimit(maxLength) ==> r == content
    ensures Truthy(content) && |content.value| > EffectiveLimit(maxLength) ==>
      var kept := PrefixSlice(content.value, EffectiveLimit(maxLength) - MarkerRoom);
      && r.value == kept + Marker(|content.value|)
      && StartsWith(content.value, kept)
  {
    if !Truthy(content) then content
    else
      var limit := EffectiveLimit(maxLength);
      var text := content.value;
      if |text| <= limit then content
      else Some(PrefixSlice(text, limit - MarkerRoom) + Marker(|text|))
  }

  /** `max_length or MAX_CELL_LENGTH`. */
  function EffectiveLimit(maxLength: Option<int>): (limit: int)
    ensures maxLength.None? || maxLength.value == 0 ==> limit == MaxCellLength
    ensures maxLength.Some? && maxLength.value != 0 ==> limit == maxLength.value
  {
    if maxLength.None? || maxLength.value == 0 then MaxCellLength else maxLength.value
  }

  lemma {:induction false} NatToStringAtLeast(n: nat, k: nat)
    ensures n >= Pow10(k) ==> |NatToString(n)| >= k + 1
    decreases k
  {
    if n >= Pow10(k) && k > 0 {
      assert n / 10 >= Pow10(k - 1);
      NatToStringAtLeast(n / 10, k - 1);
    }
  }

  /**
   * With a limit of at least 50, a truncated cell is exactly the limit
   * minus 7 plus the digits of the original length; so it fits the limit
   * exactly when the original length has at most 7 digits.
   */
  lemma TruncatedLength(text: string, maxLength: Option<int>)
    requires EffectiveLimit(maxLength) >= MarkerRoom && |text| > EffectiveLimit(maxLength)
    ensures var r := Truncate(Some(text), maxLength).value;
      && |r| == EffectiveLimit(maxLength) - 7 + |NatToString(|text|)|
      && (|r| <= EffectiveLimit(maxLength) <==> |text| < 10000000)
  {
    NatToStringLength(|text|, 7);
    NatToStringAtLeast(|text|, 7);
    assert Pow10(7) == 10000000;
  }

  /** The default limit: every truncated cell fits unless the text has ten million characters or more. */
  lemma DefaultLimitFits(text: string)
    requires 0 < |text| < 10000000
    ensures |Truncate(Some(text), None).value| <= MaxCellLength
  {
    if |text| > MaxCellLength {
      TruncatedLength(text, None);
    }
  }

  /** Below a limit of 50 the slice bound is negative and counts back from the end of the text. */
  lemma SmallLimitCountsFromEnd(text: string)
    requires |text| == 100
    ensures Truncate(Some(text), Some(10)).value == text[..60] + Marker(100)
  {
  }

  // ---------------------------------------------------------------------------
  // Query/response pairing
  // ---------------------------------------------------------------------------

  datatype Kind = Query | Response | OtherKind

  /** One stored message as the export reads it. */
  datatype ExportMessage = ExportMessage(kind: Kind, content: string, ragContext: Option<string>, responseTimeMs: Option<int>)

  /** A sheet row's turn number and the positions of its query and response. */
  datatype Pair = Pair(turn: nat, query: nat, response: nat)

  function CountQueries(msgs: seq<ExportMessage>): (n: nat)
    ensures n <= |msgs|
  {
    if msgs == [] then 0
    else CountQueries(msgs[..|msgs| - 1]) + (if msgs[|msgs| - 1].kind == Query then 1 else 0)
  }

  /** Message i is a query that nothing but other kinds of message followed, up to position `end`. */
  predicate OpenQuery(msgs: seq<ExportMessage>, i: int, end: int)
    requires end <= |msgs|
  {
    0 <= i < end && msgs[i].kind == Query && forall k :: i < k < end ==> msgs[k].kind == OtherKind
  }

  /** The response at j answers the query at i: the query was still open when j arrived. */
  predicate Answers(msgs: seq<ExportMessage>, i: int, j: int) {
    0 <= j < |msgs| && msgs[j].kind == Response && OpenQuery(msgs, i, j)
  }

  /** The turn number of the query at i: the queries up to and including it. */
  function QueriesThrough(msgs: seq<ExportMessage>, i: int): nat
    requires 0 <= i < |msgs|
  {
    CountQueries(msgs[..i + 1])
  }

  datatype ScanState = ScanState(pending: Option<nat>, turn: nat, pairs: seq<Pair>)

  /**
   * The loop over one conversation's messages: a query becomes the pending
   * one and advances the turn counter; a response with a pending query emits
   * a pair and clears it; anything else is skipped.
   */
  function Scan(msgs: seq<ExportMessage>): (st: ScanState)
    ensures st.turn == CountQueries(msgs)
    ensures st.pending.Some? ==> st.pending.value < |msgs|
    ensures forall p :: p in st.pairs ==> p.query < p.response < |msgs|
  {
    if msgs == [] then ScanState(None, 0, [])
    else
      var n := |msgs| - 1;
      var st := Scan(msgs[..n]);
      var m := msgs[n];
      if m.kind == Query then ScanState(Some(n), st.turn + 1, st.pairs)
      else if m.kind == Response && st.pending.Some? then
        ScanState(None, st.turn, st.pairs + [Pair(QueriesThrough(msgs, st.pending.value), st.pending.value, n)])
      else if m.kind == Response then ScanState(None, st.turn, st.pairs)
      else st
  }

  /** What the last message adds to the facts about the shorter conversation. */
  lemma ScanPrefix(msgs: seq<ExportMessage>)
    requires msgs != []
    ensures var n := |msgs| - 1;
      && (forall i, j :: j < n ==> (Answers(msgs, i, j) <==> Answers(msgs[..n], i, j)))
      && (forall i :: 0 <= i < n ==> QueriesThrough(msgs, i) == QueriesThrough(msgs[..n], i))
      && (forall i :: Answers(msgs, i, n) <==> msgs[n].kind == Response && OpenQuery(msgs[..n], i, n))
      && (forall i :: OpenQuery(msgs, i, |msgs|) <==>
            (i == n && msgs[n].kind == Query) || (msgs[n].kind == OtherKind && OpenQuery(msgs[..n], i, n)))
  {
    var n := |msgs| - 1;
    assert forall k :: 0 <= k < n ==> msgs[..n][k] == msgs[k];
    forall i | 0 <= i < n
      ensures QueriesThrough(msgs, i) == QueriesThrough(msgs[..n], i)
    {
      assert msgs[..i + 1] == msgs[..n][..i + 1];
    }
  }

  /** The pending query is the open one, if any. */
  lemma {:induction false} ScanPending(msgs: seq<ExportMessage>)
    ensures var st := Scan(msgs);
      && (st.pending.Some? <==> exists i :: OpenQuery(msgs, i, |msgs|))
      && (st.pending.Some? ==> OpenQuery(msgs, st.pending.value, |msgs|))
  {
    if msgs != [] {
      var n := |msgs| - 1;
      ScanPending(msgs[..n]);
      ScanPrefix(msgs);
      if msgs[n].kind == Query {
        assert OpenQuery(msgs, n, |msgs|);
      }
    }
  }

  /**
   * Every row pairs a response with the query open when it arrived and
   * carries that query's turn number, and the rows follow the responses in order.
   */
  lemma {:induction false} ScanSound(msgs: seq<ExportMessage>)
    ensures var st := Scan(msgs);
      && (forall p :: p in st.pairs ==> Answers(msgs, p.query, p.response) && p.turn == QueriesThrough(msgs, p.query))
      && (forall a, b :: 0 <= a < b < |st.pairs| ==> st.pairs[a].response < st.pairs[b].response)
  {
    if msgs != [] {
      var n := |msgs| - 1;
      var st := Scan(msgs[..n]);
      ScanSound(msgs[..n]);
      ScanPending(msgs[..n]);
      ScanPrefix(msgs);
      assert forall p :: p in st.pairs ==> p.response < n;
    }
  }

  /** Every response that finds an open query yields its row. */
  lemma {:induction false} ScanComplete(msgs: seq<ExportMessage>)
    ensures forall i, j :: Answers(msgs, i, j) ==> Pair(QueriesThrough(msgs, i), i, j) in Scan(msgs).pairs
  {
    if msgs != [] {
      var n := |msgs| - 1;
      var st := Scan(msgs[..n]);
      ScanComplete(msgs[..n]);
      ScanPending(msgs[..n]);
      ScanPrefix(msgs);
      forall i, j | Answers(msgs, i, j)
        ensures Pair(QueriesThrough(msgs, i), i, j) in Scan(msgs).pairs
      {
        if j == n {
          OpenQueryUnique(msgs[..n], i, st.pending.value, n);
        }
      }
    }
  }

  /** Only one query can be open at a time. */
  lemma OpenQueryUnique(msgs: seq<ExportMessage>, i: int, i': int, end: int)
    requires end <= |msgs| && OpenQuery(msgs, i, end) && OpenQuery(msgs, i', end)
    ensures i == i'
  {
  }

  /** Every response answers at most one query and so yields at most one row. */
  lemma AtMostOneRowPerResponse(msgs: seq<ExportMessage>, p: Pair, q: Pair)
    requires p in Scan(msgs).pairs && q in Scan(msgs).pairs && p.response == q.response
    ensures p == q
  {
    ScanSound(msgs);
    OpenQueryUnique(msgs, p.query, q.query, p.response);
  }

  /** A query that is followed by another query before any response is dropped, but its turn number is spent. */
  lemma SkippedQueryStillCounts()
    ensures var msgs := [ExportMessage(Query, "a", None, None), ExportMessage(Query, "b", None, None),
                         ExportMessage(Response, "c", None, None)];
      Scan(msgs).pairs == [Pair(2, 1, 2)]
  {
    var m0, m1, m2 := ExportMessage(Query, "a", None, None), ExportMessage(Query, "b", None, None),
                      ExportMessage(Response, "c", None, None);
    var msgs := [m0, m1, m2];
    assert [m0][..0] == [];
    assert Scan([m0]) == ScanState(Some(0), 1, []);
    assert [m0, m1][..1] == [m0];
    assert Scan([m0, m1]) == ScanState(Some(1), 2, []);
    assert msgs[..2] == [m0, m1];
    assert CountQueries([m0, m1]) == 2;
  }

  /** A conversation as the export reads it: its columns and its messages, oldest first. */
  datatype ExportConversation = ExportConversation(anonymousId: string, platform: string, date: string, messages: seq<ExportMessage>)

  /** A row of the "UserInteractions" sheet. */
  datatype SheetRow =
    | Interaction(anonymousId: string, platform: string, date: string, turn: string, query: Option<string>,
                  ragContext: Option<string>, response: Option<string>, responseTimeMs: int, lengths: seq<int>)
    | Separator
    | Heading(cells: seq<string>)

  const DashboardNoRag := "No RAG context"
  const LegacyNoRag := "No RAG context retrieved"

  /**
   * The row for one pair: "Turn n", the three truncated cells (a missing
   * context replaced by `noRag`), the response time or 0, and, in the older
   * exporter, the query and response lengths.
   */
  function RowFor(c: ExportConversation, p: Pair, noRag: string, withLengths: bool): (row: SheetRow)
    requires p.query < |c.messages| && p.response < |c.messages|
    ensures row.Interaction? && row.turn == "Turn " + NatToString(p.turn)
    ensures row.lengths == if withLengths then [|c.messages[p.query].content|, |c.messages[p.response].content|] else []
    ensures row.ragContext == Truncate(Some(if Truthy(c.messages[p.response].ragContext)
                                            then c.messages[p.response].ragContext.value else noRag), None)
  {
    var q := c.messages[p.query];
    var r := c.messages[p.response];
    var rag := if Truthy(r.ragContext) then r.ragContext.value else noRag;
    var time := if r.responseTimeMs.Some? then r.responseTimeMs.value else 0;
    Interaction(c.anonymousId, c.platform, c.date, "Turn " + NatToString(p.turn),
                Truncate(Some(q.content), None), Truncate(Some(rag), None), Truncate(Some(r.content), None),
                time, if withLengths then [|q.content|, |r.content|] else [])
  }

  function RowsFor(c: ExportConversation, pairs: seq<Pair>, noRag: string, withLengths: bool): (rows: seq<SheetRow>)
    requires forall p :: p in pairs ==> p.query < |c.messages| && p.response < |c.messages|
    ensures |rows| == |pairs|
    ensures forall k :: 0 <= k < |pairs| ==> rows[k] == RowFor(c, pairs[k], noRag, withLengths)
  {
    if pairs == [] then []
    else [RowFor(c, pairs[0], noRag, withLengths)] + RowsFor(c, pairs[1..], noRag, withLengths)
  }

  function ConversationRows(c: ExportConversation, noRag: string, withLengths: bool): (rows: seq<SheetRow>)
    ensures |rows| == |Scan(c.messages).pairs|
    ensures forall r :: r in rows ==> r.Interaction?
  {
    RowsFor(c, Scan(c.messages).pairs, noRag, withLengths)
  }

  const DashboardHeader: seq<string> := ["User ID", "Platform", "Date", "Turn", "Query", "RAG Context", "Response", "Response Time (ms)"]

  /** `sync_user_interactions` of the dashboard: the header row, then each conversation's rows. */
  function DashboardInteractions(convs: seq<ExportConversation>): (rows: seq<SheetRow>)
    ensures |rows| >= 1 && rows[0] == Heading(DashboardHeader)
    ensures Separator !in rows
    decreases |convs|
  {
    if convs == [] then [Heading(DashboardHeader)]
    else
      var front := DashboardInteractions(convs[..|convs| - 1]);
      var added := ConversationRows(convs[|convs| - 1], DashboardNoRag, false);
      assert forall r :: r in added ==> r != Separator;
      front + added
  }

  /** After the header, every row is an interaction without the length columns. */
  predicate PlainInteractionsAfterHeader(rows: seq<SheetRow>) {
    forall k :: 1 <= k < |rows| ==> rows[k].Interaction? && rows[k].lengths == []
  }

  /** The dashboard export has that shape. */
  lemma {:induction false} DashboardRowsAreInteractions(convs: seq<ExportConversation>)
    ensures PlainInteractionsAfterHeader(DashboardInteractions(convs))
    decreases |convs|
  {
    if convs != [] {
      var front := DashboardInteractions(convs[..|convs| - 1]);
      var c := convs[|convs| - 1];
      var added := ConversationRows(c, DashboardNoRag, false);
      DashboardRowsAreInteractions(convs[..|convs| - 1]);
      var rows := front + added;
      assert DashboardInteractions(convs) == rows;
      forall k | 1 <= k < |rows| ensures rows[k].Interaction? && rows[k].lengths == [] {
        if k >= |front| {
          assert rows[k] == added[k - |front|] == RowFor(c, Scan(c.messages).pairs[k - |front|], DashboardNoRag, false);
        } else {
          assert rows[k] == front[k];
        }
      }
    }
  }

  const LegacyTitle := ("User Interactions - Queries, " + "RAG Context, and Responses " + "(truncated if >45k chars)")
  const LegacyHeader: seq<string> := ["User ID", "Platform", "Conversation Date", "Turn #", "User Query", "RAG Context Retrieved",
                                      "Model Response", "Response Time (ms)", "Query Length", "Response Length"]

  function LegacyPreamble(): seq<SheetRow> {
    [Heading([LegacyTitle]), Heading([""]), Heading(LegacyHeader)]
  }

  function CountNonEmpty(convs: seq<ExportConversation>): nat {
    if convs == [] then 0
    else CountNonEmpty(convs[..|convs| - 1]) + (if convs[|convs| - 1].messages != [] then 1 else 0)
  }

  function CountSeparators(rows: seq<SheetRow>): nat {
    if rows == [] then 0 else CountSeparators(rows[..|rows| - 1]) + (if rows[|rows| - 1] == Separator then 1 else 0)
  }

  lemma {:induction false} CountSeparatorsAppend(a: seq<SheetRow>, b: seq<SheetRow>)
    ensures CountSeparators(a + b) == CountSeparators(a) + CountSeparators(b)
    decreases |b|
  {
    if b == [] {
      assert a + b == a;
    } else {
      assert (a + b)[..|a + b| - 1] == a + b[..|b| - 1];
      CountSeparatorsAppend(a, b[..|b| - 1]);
    }
  }

  lemma {:induction false} NoSeparators(rows: seq<SheetRow>)
    requires Separator !in rows
    ensures CountSeparators(rows) == 0
    decreases |rows|
  {
    if rows != [] {
      assert rows[|rows| - 1] in rows;
      assert forall r :: r in rows[..|rows| - 1] ==> r in rows;
      NoSeparators(rows[..|rows| - 1]);
    }
  }

  /**
   * `sync_user_interactions` of the older server: three heading rows, then
   * each conversation's rows followed by a separator when it has messages.
   */
  function LegacyInteractions(convs: seq<ExportConversation>): (rows: seq<SheetRow>)
    ensures |rows| >= 3 && rows[..3] == LegacyPreamble()
    decreases |convs|
  {
    if convs == [] then LegacyPreamble()
    else
      var c := convs[|convs| - 1];
      var front := LegacyInteractions(convs[..|convs| - 1]);
      front + ConversationRows(c, LegacyNoRag, true) + (if c.messages != [] then [Separator] else [])
  }

  /** The older exporter writes one separator per conversation that has at least one message. */
  lemma {:induction false} SeparatorPerNonEmptyConversation(convs: seq<ExportConversation>)
    ensures CountSeparators(LegacyInteractions(convs)) == CountNonEmpty(convs)
    decreases |convs|
  {
    if convs == [] {
      NoSeparators(LegacyPreamble());
    } else {
      var c := convs[|convs| - 1];
      var front := LegacyInteractions(convs[..|convs| - 1]);
      var rows := ConversationRows(c, LegacyNoRag, true);
      var sep: seq<SheetRow> := if c.messages != [] then [Separator] else [];
      SeparatorPerNonEmptyConversation(convs[..|convs| - 1]);
      CountSeparatorsAppend(front, rows);
      CountSeparatorsAppend(front + rows, sep);
      NoSeparators(rows);
      assert CountSeparators(sep) == (if c.messages != [] then 1 else 0) by {
        if c.messages != [] { assert sep[..0] == []; }
      }
    }
  }

  // ---------------------------------------------------------------------------
  // Availability guard
  // ---------------------------------------------------------------------------

  /** The sheets the client can see: name to rows, each row a list of cells. */
  type Spreadsheet = map<string, seq<seq<string>>>

  datatype SheetsClient = SheetsClient(googleApi: bool, hasService: bool, spreadsheetId: Option<string>, book: Spreadsheet)

  /** `is_available`: the library imported, a service built, and a spreadsheet id (any string, even ""). */
  predicate IsAvailable(c: SheetsClient) {
    c.googleApi && c.hasService && c.spreadsheetId.Some?
  }

  /** `ensure_sheet_exists`: adds an empty sheet of that name when missing; an HTTP error is printed and changes nothing. */
  function EnsureSheetExists(c: SheetsClient, name: string, httpError: bool): (c': SheetsClient)
    ensures !IsAvailable(c) || httpError ==> c' == c
    ensures IsAvailable(c) && !httpError ==> name in c'.book && c'.book == (if name in c.book then c.book else c.book[name := []])
  {
    if !IsAvailable(c) || httpError then c
    else if name in c.book then c
    else c.(book := c.book[name := []])
  }

  /** The sheet of that name, or no rows when there is none. */
  function SheetOf(book: Spreadsheet, name: string): seq<seq<string>> {
    if name in book then book[name] else []
  }

  /**
   * A cell as the spreadsheet shows it, by 0-based row and column: a cell
   * outside the stored rows is empty, and an empty text is an empty cell.
   */
  function Cell(sheet: seq<seq<string>>, r: int, col: int): string {
    if 0 <= r < |sheet| && 0 <= col < |sheet[r]| then sheet[r][col] else ""
  }

  /** The columns `A:Z` that `clear_sheet` empties. */
  const ClearedColumns: int := 26

  /** One row after clearing `A:Z`: the first 26 cells empty, any cells further right kept. */
  function ClearRow(row: seq<string>): (row': seq<string>)
    ensures forall col :: 0 <= col < ClearedColumns ==> Cell([row'], 0, col) == ""
    ensures forall col :: col >= ClearedColumns ==> Cell([row'], 0, col) == Cell([row], 0, col)
  {
    if |row| <= ClearedColumns then [] else seq(ClearedColumns, _ => "") + row[ClearedColumns..]
  }

  /** The values of a sheet after clearing the range `A:Z`. */
  function ClearRange(sheet: seq<seq<string>>): (sheet': seq<seq<string>>)
    ensures forall r, col :: Cell(sheet', r, col) == (if 0 <= col < ClearedColumns then "" else Cell(sheet, r, col))
  {
    var sheet' := seq(|sheet|, r requires 0 <= r < |sheet| => ClearRow(sheet[r]));
    assert forall r, col :: 0 <= r < |sheet| ==>
      (Cell(sheet', r, col) == Cell([ClearRow(sheet[r])], 0, col) && Cell(sheet, r, col) == Cell([sheet[r]], 0, col));
    sheet'
  }

  /** Whether the update's values give a cell: row `r` of the data has a column `col`. */
  predicate Given(data: seq<seq<string>>, r: int, col: int) {
    0 <= r < |data| && 0 <= col < |data[r]|
  }

  /** One row after the update: the given cells, then the old row's cells beyond them. */
  function OverwriteRow(prior: seq<string>, given: seq<string>): seq<string> {
    given + (if |given| < |prior| then prior[|given|..] else [])
  }

  /**
   * The values of a sheet after `values().update` from A1: exactly the given
   * cells change; every other cell, also to the right of a shorter given
   * row, keeps its value.
   */
  function Overwrite(sheet: seq<seq<string>>, data: seq<seq<string>>): (sheet': seq<seq<string>>)
    ensures forall r, col :: Cell(sheet', r, col) == (if Given(data, r, col) then data[r][col] else Cell(sheet, r, col))
  {
    var n := if |data| < |sheet| then |sheet| else |data|;
    seq(n, r requires 0 <= r < n =>
      if r < |data| then OverwriteRow(if r < |sheet| then sheet[r] else [], data[r]) else sheet[r])
  }

  /**
   * `clear_sheet`: the sheet is ensured to exist (its own HTTP error is
   * printed), then `A:Z` is cleared; an HTTP error of the clear, or a range
   * on a sheet that still does not exist, is printed and clears nothing.
   */
  function ClearSheet(c: SheetsClient, name: string, ensureError: bool, httpError: bool): (c': SheetsClient)
    ensures !IsAvailable(c) ==> c' == c
    ensures httpError || name !in EnsureSheetExists(c, name, ensureError).book ==> c' == EnsureSheetExists(c, name, ensureError)
    ensures IsAvailable(c) && !ensureError ==> name in c'.book
    ensures name in EnsureSheetExists(c, name, ensureError).book ==> name in c'.book
    ensures name in c'.book ==> c'.book == c.book[name := c'.book[name]]
    ensures IsAvailable(c) && !httpError && name in EnsureSheetExists(c, name, ensureError).book ==>
      forall r, col :: Cell(c'.book[name], r, col) == (if 0 <= col < ClearedColumns then "" else Cell(SheetOf(c.book, name), r, col))
  {
    var c1 := EnsureSheetExists(c, name, ensureError);
    if !IsAvailable(c) || httpError || name !in c1.book then c1
    else c1.(book := c1.book[name := ClearRange(c1.book[name])])
  }

  /**
   * `write_to_sheet` from A1: the sheet is ensured to exist, then the given
   * cells are written and every other cell keeps its value; an HTTP error of
   * the update, or a range on a sheet that still does not exist, is printed
   * and writes nothing.
   */
  function WriteToSheet(c: SheetsClient, name: string, data: seq<seq<string>>, ensureError: bool, httpError: bool)
    : (c': SheetsClient)
    ensures !IsAvailable(c) ==> c' == c
    ensures httpError || name !in EnsureSheetExists(c, name, ensureError).book ==> c' == EnsureSheetExists(c, name, ensureError)
    ensures IsAvailable(c) && !ensureError ==> name in c'.book
    ensures name in EnsureSheetExists(c, name, ensureError).book ==> name in c'.book
    ensures name in c'.book ==> c'.book == c.book[name := c'.book[name]]
    ensures IsAvailable(c) && !httpError && name in EnsureSheetExists(c, name, ensureError).book ==>
      forall r, col :: Cell(c'.book[name], r, col) == (if Given(data, r, col) then data[r][col] else Cell(SheetOf(c.book, name), r, col))
  {
    var c1 := EnsureSheetExists(c, name, ensureError);
    if !IsAvailable(c) || httpError || name !in c1.book then c1
    else c1.(book := c1.book[name := Overwrite(c1.book[name], data)])
  }

  /**
   * Clearing then writing without an HTTP error: in `A:Z` the sheet shows
   * exactly the written cells, to the right of Z it keeps what it had
   * (unless written there), and no other sheet changes; without a client
   * nothing changes.
   */
  lemma ClearThenWrite(c: SheetsClient, name: string, data: seq<seq<string>>)
    ensures var c' := WriteToSheet(ClearSheet(c, name, false, false), name, data, false, false);
      && (IsAvailable(c) ==>
            && name in c'.book && c'.book == c.book[name := c'.book[name]]
            && (forall r, col :: 0 <= col < ClearedColumns ==> Cell(c'.book[name], r, col) == Cell(data, r, col))
            && (forall r, col :: col >= ClearedColumns ==>
                  Cell(c'.book[name], r, col) == (if Given(data, r, col) then data[r][col] else Cell(SheetOf(c.book, name), r, col))))
      && (!IsAvailable(c) ==> c' == c)
  {
    if IsAvailable(c) {
      var c1 := ClearSheet(c, name, false, false);
      var c2 := WriteToSheet(c1, name, data, false, false);
      assert EnsureSheetExists(c1, name, false) == c1;
      forall r, col
        ensures Cell(c2.book[name], r, col) ==
          (if Given(data, r, col) then data[r][col] else if 0 <= col < ClearedColumns then "" else Cell(SheetOf(c.book, name), r, col))
      {
      }
    }
  }

  /** A cell as written: a missing text is an empty cell. */
  function CellText(t: Option<string>): string {
    if t.Some? then t.value else ""
  }

  /** The cells of a row as the spreadsheet holds them (numbers in decimal). */
  function RowCells(row: SheetRow): (cells: seq<string>)
    ensures row.Interaction? ==> |cells| == 8 + |row.lengths|
    ensures row.Separator? ==> |cells| == 10 && forall k :: 0 <= k < 10 ==> cells[k] == "---"
  {
    match row
    case Heading(cs) => cs
    case Separator => ["---", "---", "---", "---", "---", "---", "---", "---", "---", "---"]
    case Interaction(id, platform, date, turn, query, rag, response, time, lengths) =>
      [id, platform, date, turn, CellText(query), CellText(rag), CellText(response), IntToString(time)]
        + seq(|lengths|, k requires 0 <= k < |lengths| => IntToString(lengths[k]))
  }

  function SheetValues(rows: seq<SheetRow>): (data: seq<seq<string>>)
    ensures |data| == |rows|
    ensures forall k :: 0 <= k < |rows| ==> data[k] == RowCells(rows[k])
  {
    seq(|rows|, k requires 0 <= k < |rows| => RowCells(rows[k]))
  }

  /** The number of query/response pairs the export finds across the conversations. */
  function PairCount(convs: seq<ExportConversation>): nat {
    if convs == [] then 0 else PairCount(convs[..|convs| - 1]) + |Scan(convs[|convs| - 1].messages).pairs|
  }

  /** The dashboard sheet has the header row and one row per pair. */
  lemma {:induction false} DashboardRowCount(convs: seq<ExportConversation>)
    ensures |DashboardInteractions(convs)| == 1 + PairCount(convs)
    decreases |convs|
  {
    if convs != [] {
      DashboardRowCount(convs[..|convs| - 1]);
    }
  }

  /**
   * The printed-and-swallowed HTTP errors of one interactions sync: of the
   * clear's `ensure_sheet_exists`, of the clear, of the write's
   * `ensure_sheet_exists`, and of the update.
   */
  datatype HttpFaults = HttpFaults(clearEnsure: bool, clear: bool, writeEnsure: bool, write: bool)

  const NoFaults: HttpFaults := HttpFaults(false, false, false, false)

  /** The values the interactions sync writes: the header, then one 8-cell row per pair. */
  lemma DashboardValuesShape(convs: seq<ExportConversation>)
    ensures var data := SheetValues(DashboardInteractions(convs));
      && |data| == 1 + PairCount(convs)
      && data[0] == DashboardHeader
      && forall k :: 1 <= k < |data| ==> |data[k]| == 8
  {
    DashboardRowCount(convs);
    DashboardRowsAreInteractions(convs);
  }

  /**
   * Where an error other than an `HttpError` escapes into `full_sync`'s
   * `except Exception`: nowhere; before the interactions sync touches the
   * spreadsheet (an earlier sync, the database query, or the first
   * `ensure_sheet_exists` lookup); in the clear after its
   * `ensure_sheet_exists` finished; or in the update after the clear and
   * the update's `ensure_sheet_exists` finished. A raise inside the second
   * `ensure_sheet_exists` leaves the spreadsheet as `RaiseAtWrite` with its
   * ensure fault set does.
   */
  datatype SyncRaise = NoRaise | RaiseBefore | RaiseAtClear | RaiseAtWrite

  /**
   * `full_sync` of the dashboard: False without touching the spreadsheet
   * when the client is unavailable; otherwise the five syncs run and an
   * escaping error makes it False, keeping whatever the steps before it
   * wrote, while the HTTP errors of the clear and the write are only
   * printed and still give True. Without any error, columns A:Z of the
   * interactions sheet show exactly the export of `convs` (the header in
   * row 1, one 8-cell row per pair, nothing below or to the right within
   * A:Z); no other sheet is touched (the four other syncs are not modelled).
   */
  function FullSync(c: SheetsClient, convs: seq<ExportConversation>, raise: SyncRaise, faults: HttpFaults)
    : (res: (SheetsClient, bool))
    ensures !IsAvailable(c) ==> res == (c, false)
    ensures IsAvailable(c) ==> (res.1 <==> raise.NoRaise?)
    ensures raise.RaiseBefore? ==> res == (c, false)
    ensures "UserInteractions" in res.0.book ==> res.0.book == c.book["UserInteractions" := res.0.book["UserInteractions"]]
    ensures "UserInteractions" !in res.0.book ==> res.0.book == c.book
    ensures raise.RaiseAtClear? ==>
      && (IsAvailable(c) && !faults.clearEnsure ==> "UserInteractions" in res.0.book)
      && forall r, col :: Cell(SheetOf(res.0.book, "UserInteractions"), r, col) == Cell(SheetOf(c.book, "UserInteractions"), r, col)
    ensures IsAvailable(c) && raise.RaiseAtWrite? && !faults.clearEnsure && !faults.clear ==>
      && "UserInteractions" in res.0.book
      && forall r, col :: 0 <= col < ClearedColumns ==> Cell(res.0.book["UserInteractions"], r, col) == ""
    ensures IsAvailable(c) && raise.NoRaise? && faults == NoFaults ==>
      && "UserInteractions" in res.0.book
      && var sheet := res.0.book["UserInteractions"];
         var data := SheetValues(DashboardInteractions(convs));
         && (forall r, col :: 0 <= col < ClearedColumns ==> Cell(sheet, r, col) == Cell(data, r, col))
         && (forall col :: 0 <= col < 8 ==> Cell(sheet, 0, col) == DashboardHeader[col])
         && (forall r, col :: 1 + PairCount(convs) <= r && 0 <= col < ClearedColumns ==> Cell(sheet, r, col) == "")
         && (forall r, col :: 8 <= col < ClearedColumns ==> Cell(sheet, r, col) == "")
  {
    if !IsAvailable(c) then (c, false)
    else
      match raise
      case RaiseBefore => (c, false)
      case RaiseAtClear => (EnsureSheetExists(c, "UserInteractions", faults.clearEnsure), false)
      case RaiseAtWrite =>
        var cleared := ClearSheet(c, "UserInteractions", faults.clearEnsure, faults.clear);
        assert !faults.clearEnsure ==> EnsureSheetExists(cleared, "UserInteractions", faults.writeEnsure) == cleared;
        (EnsureSheetExists(cleared, "UserInteractions", faults.writeEnsure), false)
      case NoRaise =>
        var data := SheetValues(DashboardInteractions(convs));
        ClearThenWrite(c, "UserInteractions", data);
        DashboardValuesShape(convs);
        var cleared := ClearSheet(c, "UserInteractions", faults.clearEnsure, faults.clear);
        (WriteToSheet(cleared, "UserInteractions", data, faults.writeEnsure, faults.write), true)
  }

  /**
   * An update that times out after a good clear is not an `HttpError`: the
   * sync reports False, and the old contents are gone from A:Z all the same.
   */
  lemma FullSyncTimeoutAfterClear(convs: seq<ExportConversation>)
    ensures var c := SheetsClient(true, true, Some("sheet"), map["UserInteractions" := [["old"]]]);
      var res := FullSync(c, convs, RaiseAtWrite, NoFaults);
      !res.1 && Cell(c.book["UserInteractions"], 0, 0) == "old" && Cell(res.0.book["UserInteractions"], 0, 0) == ""
  {
  }

  /**
   * A failed update after a good clear is swallowed: the sync still reports
   * True, and the interactions sheet is left blank in A:Z.
   */
  lemma FullSyncSwallowsWriteError(c: SheetsClient, convs: seq<ExportConversation>)
    requires IsAvailable(c)
    ensures var res := FullSync(c, convs, NoRaise, HttpFaults(false, false, false, true));
      && res.1
      && "UserInteractions" in res.0.book
      && forall r, col :: 0 <= col < ClearedColumns ==> Cell(res.0.book["UserInteractions"], r, col) == ""
  {
    var cleared := ClearSheet(c, "UserInteractions", false, false);
    assert EnsureSheetExists(cleared, "UserInteractions", false) == cleared;
  }

  /**
   * A failed clear before a good update is swallowed too: the sync reports
   * True, the export's cells are written, and every cell the export does
   * not reach keeps its old value, so rows of an earlier, longer export stay.
   */
  lemma FullSyncSwallowsClearError(c: SheetsClient, convs: seq<ExportConversation>)
    requires IsAvailable(c)
    ensures var res := FullSync(c, convs, NoRaise, HttpFaults(false, true, false, false));
      var data := SheetValues(DashboardInteractions(convs));
      && res.1
      && "UserInteractions" in res.0.book
      && forall r, col :: Cell(res.0.book["UserInteractions"], r, col)
                          == (if Given(data, r, col) then data[r][col] else Cell(SheetOf(c.book, "UserInteractions"), r, col))
  {
    var cleared := ClearSheet(c, "UserInteractions", false, true);
    assert cleared == EnsureSheetExists(c, "UserInteractions", false);
    assert EnsureSheetExists(cleared, "UserInteractions", false) == cleared;
    assert SheetOf(cleared.book, "UserInteractions") == SheetOf(c.book, "UserInteractions");
  }

  /** `full_sync` of the older server refuses on a missing service or a falsy spreadsheet id. */
  predicate LegacyCanSync(hasService: bool, spreadsheetId: Option<string>) {
    hasService && Truthy(spreadsheetId)
  }

  /** The two guards part ways on an empty spreadsheet id: the dashboard goes ahead, the older server refuses. */
  lemma EmptyIdSplitsTheGuards(book: Spreadsheet)
    ensures IsAvailable(SheetsClient(true, true, Some(""), book))
    ensures !LegacyCanSync(true, Some(""))
  {
  }
}
